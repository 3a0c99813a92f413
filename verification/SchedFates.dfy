/**
 What becomes of a thread: whom a search of the ready queues passes over and whom it takes, who leaves the machine and
 at whose request, and what each event does to the thread it is about.
 */
module SchedFates {
  import opened Options
  import opened Sched
  import opened SchedSteps
  import opened SchedOrder

  // ---------- What a search takes ----------

  /** How many threads at the front of a queue are dead. */
  function DeadAmount(s: State, queue: seq<Tid>): (k: nat)
    ensures k <= |queue| && (forall i :: 0 <= i < k ==> Dead(s, queue[i])) && (k < |queue| ==> !Dead(s, queue[k]))
  {
    if queue == [] || !Dead(s, queue[0]) then 0 else 1 + DeadAmount(s, queue[1..])
  }

  /** Whether the search for n, from level lo up, comes to the queue of level q. */
  predicate Reaches(s: State, lo: nat, n: Option<Tid>, q: nat) {
    lo <= q && (n.Some? && n.value in s.threads ==> s.threads[n.value].priority <= q)
  }

  /** The threads of level q that the search frees, all of them dead, and whether it then takes one. */
  function Passed(s: State, lo: nat, n: Option<Tid>, queue: seq<Tid>, q: nat): (k: nat)
    ensures k <= |queue|
  {
    if Reaches(s, lo, n, q) then DeadAmount(s, queue) else 0
  }

  function Taken(s: State, n: Option<Tid>, q: nat): nat {
    if n.Some? && n.value in s.threads && s.threads[n.value].priority == q then 1 else 0
  }

  /** The thread taken is the first of its queue that is not dead. */
  predicate IsFirstLive(s: State, x: Context, lo: nat, n: Tid)
    requires ContextOk(x)
  {
    n in s.threads && lo <= s.threads[n].priority < LEVELS
    && var queue := x.queues[s.threads[n].priority];
       DeadAmount(s, queue) < |queue| && queue[DeadAmount(s, queue)] == n
  }

  /** What is left of the queue of level q: on the levels passed over, where all threads are dead, nothing; where one
      was taken, those behind it; below, everything. */
  predicate QueueAfter(s: State, x: Context, lo: nat, n: Option<Tid>, y: Context, q: nat)
    requires ContextOk(x) && ContextOk(y) && q < LEVELS
  {
    var k := Passed(s, lo, n, x.queues[q], q) + Taken(s, n, q);
    && k <= |x.queues[q]| && y.queues[q] == x.queues[q][k..]
    && (Reaches(s, lo, n, q) && Taken(s, n, q) == 0 ==> k == |x.queues[q]|)
  }

  /** u is one of the dead threads that the search came by. */
  predicate WasPassed(s: State, x: Context, lo: nat, n: Option<Tid>, u: Tid)
    requires ContextOk(x)
  {
    exists q :: 0 <= q < LEVELS && u in x.queues[q][..Passed(s, lo, n, x.queues[q], q)]
  }

  /** From s to r a search of the queues of CPU c, from level lo up, took n: the first thread of its queue that is not
      dead, with only dead ones above it; it freed the dead threads before n, and no others. */
  ghost predicate TookFirst(s: State, c: nat, lo: nat, n: Option<Tid>, r: State)
    requires CpusOk(s.cpus) && c < |s.cpus| && CpusOk(r.cpus) && c < |r.cpus|
  {
    && (n.Some? ==> IsFirstLive(s, s.cpus[c], lo, n.value))
    && (forall q :: 0 <= q < LEVELS ==> QueueAfter(s, s.cpus[c], lo, n, r.cpus[c], q))
    && (forall u :: u in s.threads ==> (u !in r.threads <==> WasPassed(s, s.cpus[c], lo, n, u)))
  }

  lemma {:induction false} SameDead(s: State, r: State, queue: seq<Tid>)
    requires forall u :: u in queue ==> Dead(s, u) == Dead(r, u)
    ensures DeadAmount(r, queue) == DeadAmount(s, queue)
  {
    hide Dead;
    if queue != [] { SameDead(s, r, queue[1..]); }
  }

  /** The state after a dead thread at the head of a queue was freed. */
  function HeadFreed(s: State, c: nat, p: nat): State
    requires CpusOk(s.cpus) && c < |s.cpus| && p < LEVELS && s.cpus[c].queues[p] != []
  {
    FreeThread(DropReady(s, c, p), s.cpus[c].queues[p][0])
  }

  predicate HeadGone(x: Context, z: Context, p: nat)
    requires ContextOk(x) && ContextOk(z) && p < LEVELS && x.queues[p] != []
  {
    forall q :: 0 <= q < LEVELS ==> z.queues[q] == if q == p then x.queues[q][1..] else x.queues[q]
  }

  lemma HeadFreedIs(s: State, c: nat, p: nat)
    requires Inv(s) && c < |s.cpus| && p < LEVELS && s.cpus[c].queues[p] != []
    ensures var t, r, x := s.cpus[c].queues[p][0], HeadFreed(s, c, p), s.cpus[c];
            && CpusOk(s.cpus) && CpusOk(r.cpus) && Inv(r) && c < |r.cpus|
            && t in s.threads && r.threads == s.threads - {t}
            && r.killedProcs == s.killedProcs && HeadGone(x, r.cpus[c], p)
            && forall q :: 0 <= q < LEVELS ==> t !in r.cpus[c].queues[q]
  {
    hide EachOnce, QueuesOk, ListsOk, RefsOk;
    var t := s.cpus[c].queues[p][0];
    DropReadyKeeps(s, c, p);
    OutIsNowhere(DropReady(s, c, p), t);
    FreeOutKeeps(DropReady(s, c, p), t);
  }

  lemma DeadHead(s: State, c: nat, p: nat, q: nat)
    requires Inv(s) && c < |s.cpus| && p < LEVELS && s.cpus[c].queues[p] != [] && Dead(s, s.cpus[c].queues[p][0])
    requires q < LEVELS
    ensures var r := HeadFreed(s, c, p);
            && c < |r.cpus| && ContextOk(r.cpus[c])
            && DeadAmount(s, s.cpus[c].queues[q]) == DeadAmount(r, r.cpus[c].queues[q]) + if q == p then 1 else 0
  {
    hide InvOut, HeadFreed;
    HeadFreedIs(s, c, p);
    SameDead(s, HeadFreed(s, c, p), HeadFreed(s, c, p).cpus[c].queues[q]);
  }

  /** m is s without the thread t, which was not taken. */
  lemma SameReach(s: State, m: State, t: Tid, lo: nat, n: Option<Tid>, p: nat, q: nat)
    requires m.threads == s.threads - {t} && lo <= p
    requires n.Some? ==> n.value in m.threads && m.threads[n.value].priority <= p
    ensures Reaches(s, lo, n, q) == Reaches(m, lo, n, q) && Taken(s, n, q) == Taken(m, n, q) && Reaches(s, lo, n, p)
  {
  }

  /** Freeing a dead head first makes no difference: on each level one thread more was passed, or none. */
  lemma LevelAfterHead(s: State, c: nat, lo: nat, p: nat, n: Option<Tid>, y: Context, q: nat)
    requires Inv(s) && c < |s.cpus| && lo <= p < LEVELS && q < LEVELS && ContextOk(y)
    requires s.cpus[c].queues[p] != [] && Dead(s, s.cpus[c].queues[p][0])
    requires var m := HeadFreed(s, c, p);
             && CpusOk(m.cpus) && c < |m.cpus| && QueueAfter(m, m.cpus[c], lo, n, y, q)
             && (n.Some? ==> n.value in m.threads && m.threads[n.value].priority <= p)
    ensures var m := HeadFreed(s, c, p);
            && Passed(s, lo, n, s.cpus[c].queues[q], q)
               == Passed(m, lo, n, m.cpus[c].queues[q], q) + (if q == p then 1 else 0)
            && QueueAfter(s, s.cpus[c], lo, n, y, q)
  {
    hide InvOut, HeadFreed, Dead, DeadAmount, QueueAfter, Passed;
    HeadFreedIs(s, c, p);
    DeadHead(s, c, p, q);
    var m := HeadFreed(s, c, p);
    SameReach(s, m, s.cpus[c].queues[p][0], lo, n, p, q);
    LevelShift(s, m, s.cpus[c], m.cpus[c], y, lo, n, p, q);
  }

  lemma LevelShift(s: State, m: State, x: Context, z: Context, y: Context, lo: nat, n: Option<Tid>, p: nat, q: nat)
    requires ContextOk(x) && ContextOk(z) && ContextOk(y) && p < LEVELS && q < LEVELS && x.queues[p] != []
    requires z.queues[q] == if q == p then x.queues[q][1..] else x.queues[q]
    requires DeadAmount(s, x.queues[q]) == DeadAmount(m, z.queues[q]) + if q == p then 1 else 0
    requires Reaches(s, lo, n, q) == Reaches(m, lo, n, q) && Taken(s, n, q) == Taken(m, n, q) && Reaches(s, lo, n, p)
    requires QueueAfter(m, z, lo, n, y, q)
    ensures Passed(s, lo, n, x.queues[q], q) == Passed(m, lo, n, z.queues[q], q) + if q == p then 1 else 0
    ensures QueueAfter(s, x, lo, n, y, q)
  {
    hide DeadAmount, Reaches, Taken;
    var k := Passed(m, lo, n, z.queues[q], q) + Taken(m, n, q);
    if q == p { TailOfTail(x.queues[p], k); }
  }

  lemma TailOfTail(queue: seq<Tid>, k: nat)
    requires k < |queue|
    ensures queue[1..][k..] == queue[k + 1..]
  {
  }

  lemma FirstAfterHead(s: State, c: nat, lo: nat, p: nat, n: Tid)
    requires Inv(s) && c < |s.cpus| && lo <= p < LEVELS && EmptyAbove(s.cpus[c], p)
    requires s.cpus[c].queues[p] != [] && Dead(s, s.cpus[c].queues[p][0])
    requires var m := HeadFreed(s, c, p); CpusOk(m.cpus) && c < |m.cpus| && IsFirstLive(m, m.cpus[c], lo, n)
    ensures IsFirstLive(s, s.cpus[c], lo, n)
    ensures var m := HeadFreed(s, c, p); n in m.threads && m.threads[n].priority <= p
  {
    hide EachOnce, QueuesOk, ListsOk, RefsOk, HeadFreed, Dead, DeadAmount;
    HeadFreedIs(s, c, p);
    var m := HeadFreed(s, c, p);
    DeadHead(s, c, p, m.threads[n].priority);
    FirstShift(s, m, s.cpus[c], m.cpus[c], lo, n, p);
  }

  lemma FirstShift(s: State, m: State, x: Context, z: Context, lo: nat, n: Tid, p: nat)
    requires ContextOk(x) && ContextOk(z) && p < LEVELS && x.queues[p] != [] && EmptyAbove(x, p)
    requires IsFirstLive(m, z, lo, n) && n in s.threads && s.threads[n] == m.threads[n]
    requires var q := m.threads[n].priority;
             && z.queues[q] == (if q == p then x.queues[q][1..] else x.queues[q])
             && DeadAmount(s, x.queues[q]) == DeadAmount(m, z.queues[q]) + if q == p then 1 else 0
    ensures IsFirstLive(s, x, lo, n) && m.threads[n].priority <= p
  {
    hide DeadAmount;
  }

  /** The search through z passes what the one through x does, less the head of level p. */
  predicate Shifted(s: State, x: Context, m: State, z: Context, lo: nat, n: Option<Tid>, p: nat) {
    && ContextOk(x) && ContextOk(z) && p < LEVELS && x.queues[p] != []
    && HeadGone(x, z, p)
    && forall q :: 0 <= q < LEVELS ==>
         Passed(s, lo, n, x.queues[q], q) == Passed(m, lo, n, z.queues[q], q) + if q == p then 1 else 0
  }

  lemma LevelsAfterHead(s: State, c: nat, lo: nat, p: nat, n: Option<Tid>, r: State)
    requires Inv(s) && c < |s.cpus| && lo <= p < LEVELS && CpusOk(r.cpus) && c < |r.cpus|
    requires s.cpus[c].queues[p] != [] && Dead(s, s.cpus[c].queues[p][0])
    requires var m := HeadFreed(s, c, p);
             && CpusOk(m.cpus) && c < |m.cpus| && (n.Some? ==> n.value in m.threads && m.threads[n.value].priority <= p)
             && forall q :: 0 <= q < LEVELS ==> QueueAfter(m, m.cpus[c], lo, n, r.cpus[c], q)
    ensures var m := HeadFreed(s, c, p); Shifted(s, s.cpus[c], m, m.cpus[c], lo, n, p)
    ensures forall q :: 0 <= q < LEVELS ==> QueueAfter(s, s.cpus[c], lo, n, r.cpus[c], q)
  {
    hide InvOut, HeadFreed, Dead, Passed, QueueAfter, HeadGone;
    HeadFreedIs(s, c, p);
    var m := HeadFreed(s, c, p);
    forall q | 0 <= q < LEVELS
      ensures QueueAfter(s, s.cpus[c], lo, n, r.cpus[c], q)
      ensures Passed(s, lo, n, s.cpus[c].queues[q], q)
           == Passed(m, lo, n, m.cpus[c].queues[q], q) + if q == p then 1 else 0
    {
      LevelAfterHead(s, c, lo, p, n, r.cpus[c], q);
    }
  }

  lemma TookAfterHead(s: State, c: nat, lo: nat, p: nat, n: Option<Tid>, r: State)
    requires Inv(s) && c < |s.cpus| && lo <= p < LEVELS && EmptyAbove(s.cpus[c], p)
    requires s.cpus[c].queues[p] != [] && Dead(s, s.cpus[c].queues[p][0])
    requires CpusOk(r.cpus) && c < |r.cpus|
    requires var m := HeadFreed(s, c, p); CpusOk(m.cpus) && c < |m.cpus| && TookFirst(m, c, lo, n, r)
    requires forall u :: u in r.threads ==> u in HeadFreed(s, c, p).threads
    ensures TookFirst(s, c, lo, n, r)
  {
    hide InvOut, HeadFreed, Dead, IsFirstLive, Passed, WasPassed, EmptyAbove, QueueAfter, Shifted, HeadGone;
    HeadFreedIs(s, c, p);
    if n.Some? { FirstAfterHead(s, c, lo, p, n.value); }
    LevelsAfterHead(s, c, lo, p, n, r);
    var m, t := HeadFreed(s, c, p), s.cpus[c].queues[p][0];
    forall u ensures WasPassed(s, s.cpus[c], lo, n, u) <==> u == t || WasPassed(m, m.cpus[c], lo, n, u) {
      PassedAfterHead(s, s.cpus[c], m, m.cpus[c], lo, n, p, u);
    }
  }

  lemma PassedAfterHead(s: State, x: Context, m: State, z: Context, lo: nat, n: Option<Tid>, p: nat, u: Tid)
    requires Shifted(s, x, m, z, lo, n, p)
    ensures WasPassed(s, x, lo, n, u) <==> u == x.queues[p][0] || WasPassed(m, z, lo, n, u)
  {
    hide Passed;
    forall q | 0 <= q < LEVELS
      ensures var k := Passed(m, lo, n, z.queues[q], q);
              u in x.queues[q][..Passed(s, lo, n, x.queues[q], q)] <==>
              u in z.queues[q][..k] || (q == p && u == x.queues[p][0])
    {
      var k := Passed(m, lo, n, z.queues[q], q);
      if q == p { assert x.queues[p][..k + 1] == [x.queues[p][0]] + z.queues[p][..k]; }
    }
  }

  /** The search does nothing else. */
  lemma {:induction false} FindIs(s: State, c: nat, lo: nat, p: int)
    requires Inv(s) && c < |s.cpus| && -1 <= p < LEVELS && EmptyAbove(s.cpus[c], p)
    ensures var (n, r) := Find(s, c, lo, p); TookFirst(s, c, lo, n, r)
    decreases QueueTotal(s.cpus[c]), p + 1
  {
    hide EachOnce, QueuesOk, ListsOk, RefsOk, TookFirst;
    if p < lo {
      NothingTaken(s, c, lo);
    } else if s.cpus[c].queues[p] == [] {
      FindIs(s, c, lo, p - 1);
    } else if Dead(s, s.cpus[c].queues[p][0]) {
      HeadFreedIs(s, c, p);
      DropSearched(s, c, p);
      FindIs(HeadFreed(s, c, p), c, lo, p);
      var (n, r) := Find(HeadFreed(s, c, p), c, lo, p);
      TookAfterHead(s, c, lo, p, n, r);
    } else {
      DropReadyKeeps(s, c, p);
      HeadTaken(s, c, lo, p);
    }
  }

  lemma NothingTaken(s: State, c: nat, lo: nat)
    requires CpusOk(s.cpus) && c < |s.cpus| && EmptyAbove(s.cpus[c], lo - 1)
    ensures TookFirst(s, c, lo, None, s)
  {
    forall q | 0 <= q < LEVELS ensures QueueAfter(s, s.cpus[c], lo, None, s.cpus[c], q) {
      assert s.cpus[c].queues[q][0..] == s.cpus[c].queues[q];
    }
  }

  lemma HeadTaken(s: State, c: nat, lo: nat, p: nat)
    requires CpusOk(s.cpus) && c < |s.cpus| && lo <= p < LEVELS && EmptyAbove(s.cpus[c], p)
    requires s.cpus[c].queues[p] != [] && !Dead(s, s.cpus[c].queues[p][0])
    requires s.cpus[c].queues[p][0] in s.threads && s.threads[s.cpus[c].queues[p][0]].priority == p
    ensures TookFirst(s, c, lo, Some(s.cpus[c].queues[p][0]), DropReady(s, c, p))
  {
    var n, r := Some(s.cpus[c].queues[p][0]), DropReady(s, c, p);
    forall q | 0 <= q < LEVELS ensures QueueAfter(s, s.cpus[c], lo, n, r.cpus[c], q) {
      assert s.cpus[c].queues[q][0..] == s.cpus[c].queues[q];
    }
  }

  // ---------- Ready queues ----------

  /** What is left of a queue stands in front, in its order, and newcomers stand behind. */
  ghost predicate Fifo(old': seq<Tid>, new': seq<Tid>) { exists k :: 0 <= k <= |old'| && old'[k..] <= new' }

  lemma FifoRefl(a: seq<Tid>)
    ensures Fifo(a, a)
  {
    assert a[0..] <= a;
  }

  lemma FifoPush(a: seq<Tid>, t: Tid)
    ensures Fifo(a, a + [t])
  {
    assert a[0..] <= a + [t];
  }

  lemma FifoDrop(a: seq<Tid>, k: nat)
    requires k <= |a|
    ensures Fifo(a, a[k..])
  {
    assert a[k..] <= a[k..];
  }

  lemma FifoTrans(a: seq<Tid>, b: seq<Tid>, c: seq<Tid>)
    requires Fifo(a, b) && Fifo(b, c)
    ensures Fifo(a, c)
  {
    var j :| 0 <= j <= |a| && a[j..] <= b;
    var k :| 0 <= k <= |b| && b[k..] <= c;
    if j + k <= |a| {
      assert a[j + k..] == a[j..][k..];
      assert a[j..][k..] <= b[k..];
      assert a[j + k..] <= c;
    } else {
      assert a[|a|..] <= c;
    }
  }

  // ---------- Steps in which threads only wake ----------

  /** The same thread, apart from what it waits for and how its wait ended. */
  predicate SameDuty(a: Thread, b: Thread) {
    b == a.(deadline := b.deadline, result := b.result, blocker := b.blocker)
  }

  /** A CPU on which threads may have become ready, and nothing else. */
  ghost predicate QuietCpu(x: Context, y: Context) {
    && ContextOk(x) && ContextOk(y) && y.run == x.run && y.graveyard == x.graveyard
    && forall q :: 0 <= q < LEVELS ==> Fifo(x.queues[q], y.queues[q])
  }

  /** From s to r threads may have become ready, and nothing else. */
  ghost predicate Quiet(s: State, r: State) {
    && |r.cpus| == |s.cpus| && (forall d :: 0 <= d < |s.cpus| ==> QuietCpu(s.cpus[d], r.cpus[d]))
    && r.killedProcs == s.killedProcs && r.threads.Keys == s.threads.Keys
    && forall u :: u in s.threads ==> SameDuty(s.threads[u], r.threads[u])
  }

  lemma QuietCpuTrans(x: Context, y: Context, z: Context)
    requires QuietCpu(x, y) && QuietCpu(y, z)
    ensures QuietCpu(x, z)
  {
    hide Fifo;
    forall q | 0 <= q < LEVELS ensures Fifo(x.queues[q], z.queues[q]) {
      FifoTrans(x.queues[q], y.queues[q], z.queues[q]);
    }
  }

  lemma QuietCpuRefl(x: Context)
    requires ContextOk(x)
    ensures QuietCpu(x, x)
  {
    hide Fifo;
    forall q | 0 <= q < LEVELS ensures Fifo(x.queues[q], x.queues[q]) { FifoRefl(x.queues[q]); }
  }

  lemma QuietTrans(a: State, b: State, c: State)
    requires Quiet(a, b) && Quiet(b, c)
    ensures Quiet(a, c)
  {
    hide QuietCpu;
    forall d | 0 <= d < |a.cpus| ensures QuietCpu(a.cpus[d], c.cpus[d]) {
      QuietCpuTrans(a.cpus[d], b.cpus[d], c.cpus[d]);
    }
  }

  lemma QuietRefl(s: State)
    requires CpusOk(s.cpus)
    ensures Quiet(s, s)
  {
    hide QuietCpu;
    forall d | 0 <= d < |s.cpus| ensures QuietCpu(s.cpus[d], s.cpus[d]) { QuietCpuRefl(s.cpus[d]); }
  }

  lemma EnqueueQuiet(x: Context, p: nat, t: Tid)
    requires ContextOk(x) && p < LEVELS
    ensures QuietCpu(x, Enqueue(x, p, t))
  {
    hide Fifo;
    forall q | 0 <= q < LEVELS ensures Fifo(x.queues[q], Enqueue(x, p, t).queues[q]) {
      if q == p { FifoPush(x.queues[q], t); } else { FifoRefl(x.queues[q]); }
    }
  }

  /** A thread leaves its list, its wait is over, and it becomes ready. */
  lemma WakingIsQuiet(s: State, b: Bid, th: Thread)
    requires Shape(s) && b < |s.blockers| && s.blockers[b] != [] && s.blockers[b][0] in s.threads
    requires SameDuty(s.threads[s.blockers[b][0]], th)
    ensures Shape(SetThread(DropHead(s, b), s.blockers[b][0], th))
    ensures Quiet(s, Push(SetThread(DropHead(s, b), s.blockers[b][0], th), s.blockers[b][0]))
  {
    hide QuietCpu, LeastLoaded, Enqueue;
    var t := s.blockers[b][0];
    var best := LeastLoaded(s.cpus);
    EnqueueQuiet(s.cpus[best], th.priority, t);
    forall d | 0 <= d < |s.cpus| && d != best ensures QuietCpu(s.cpus[d], s.cpus[d]) { QuietCpuRefl(s.cpus[d]); }
  }

  lemma TimeoutIsQuiet(s: State, b: Bid, now: nat)
    requires Shape(s)
    ensures Quiet(s, TimeoutHead(s, b, now))
  {
    hide Quiet, Push;
    if Overdue(s, b, now) {
      WakingIsQuiet(s, b, s.threads[s.blockers[b][0]].(result := Timeout, blocker := None));
    } else {
      QuietRefl(s);
    }
  }

  lemma {:induction false} TimeoutsAreQuiet(s: State, b: Bid, now: nat)
    requires Inv(s) && b <= |s.blockers|
    ensures Quiet(s, TimeoutsFrom(s, b, now))
    decreases |s.blockers| - b
  {
    hide EachOnce, QueuesOk, ListsOk, RefsOk, Quiet, TimeoutHead;
    if b < |s.blockers| {
      TimeoutHeadKeeps(s, b, now);
      TimeoutIsQuiet(s, b, now);
      TimeoutsAreQuiet(TimeoutHead(s, b, now), b + 1, now);
      QuietTrans(s, TimeoutHead(s, b, now), TimeoutsFrom(s, b, now));
    } else {
      QuietRefl(s);
    }
  }

  lemma {:induction false} UnblockIsQuiet(s: State, b: Bid)
    requires Inv(s) && b < |s.blockers|
    ensures Quiet(s, UnblockAll(s, b))
    decreases |s.blockers[b]|
  {
    hide EachOnce, QueuesOk, ListsOk, RefsOk, Quiet, Push;
    if s.blockers[b] != [] {
      HeadIsLive(s, b);
      WakeHeadKeeps(s, b);
      WakingIsQuiet(s, b, s.threads[s.blockers[b][0]].(deadline := 0, result := Norm, blocker := None));
      UnblockIsQuiet(WakeHead(s, b), b);
      QuietTrans(s, WakeHead(s, b), UnblockAll(s, b));
    } else {
      QuietRefl(s);
    }
  }

  // ---------- Before sched_schedule chooses ----------

  /** The running thread was killed, or its process was and the trap came from user mode. */
  predicate MustGo(s: State, c: nat, t: Tid, trapUser: bool) {
    && c < |s.cpus| && s.cpus[c].run == Some(t) && t in s.threads
    && (s.threads[t].killed || (s.threads[t].process in s.killedProcs && trapUser))
  }

  /** From s to m the threads buried on CPU c went, and the running one is buried if it must go. */
  ghost predicate Cleared(s: State, c: nat, trapUser: bool, m: State) {
    && |m.cpus| == |s.cpus| && c < |s.cpus| && m.killedProcs == s.killedProcs && CpusOk(s.cpus) && CpusOk(m.cpus)
    && (forall d :: 0 <= d < |s.cpus| && d != c ==> QuietCpu(s.cpus[d], m.cpus[d]))
    && (forall q :: 0 <= q < LEVELS ==> Fifo(s.cpus[c].queues[q], m.cpus[c].queues[q]))
    && (forall u :: u in m.threads ==> u in s.threads && SameDuty(s.threads[u], m.threads[u]))
    && (forall u :: u in s.threads ==> (u in m.threads <==> u !in s.cpus[c].graveyard))
    && match s.cpus[c].run
       case None => m.cpus[c].run == None && m.cpus[c].graveyard == []
       case Some(t) =>
         t in s.threads && t in m.threads &&
         if MustGo(s, c, t, trapUser) then m.cpus[c].run == None && m.cpus[c].graveyard == [t]
         else m.cpus[c].run == Some(t) && m.cpus[c].graveyard == []
  }

  lemma PreparedIs(s: State, c: nat, trapUser: bool, now: nat)
    requires Inv(s) && c < |s.cpus|
    ensures Cleared(s, c, trapUser, Prepared(s, c, trapUser, now))
  {
    hide EachOnce, QueuesOk, ListsOk, RefsOk, Quiet;
    var s1 := if c == 0 then TimeoutsFrom(s, 0, now) else s;
    if c == 0 { TimeoutsAreQuiet(s, 0, now); } else { QuietRefl(s); }
    var s2 := EmptyGraveyard(s1, c);
    GraveyardSparesProcesses(s1, c);
    RunningLives(s, c);
    RunningSpared(s1, c);
    ClearedAfter(s, s1, s2, c, trapUser);
  }

  lemma RunningSpared(s: State, c: nat)
    requires Inv(s) && c < |s.cpus|
    ensures s.cpus[c].run.Some? ==> s.cpus[c].run.value in EmptyGraveyard(s, c).threads
  {
    hide EachOnce, QueuesOk, ListsOk, RefsOk;
    if s.cpus[c].run.Some? { RunningIsNowhereElse(s, None, c, s.cpus[c].run.value); }
  }

  lemma ClearedAfter(s: State, s1: State, s2: State, c: nat, trapUser: bool)
    requires Inv(s2) && c < |s.cpus| && CpusOk(s.cpus) && CpusOk(s1.cpus) && Quiet(s, s1)
    requires s.cpus[c].run.Some? ==> s.cpus[c].run.value in s.threads && s.cpus[c].run.value in s2.threads
    requires s2.cpus == s1.cpus[c := s1.cpus[c].(graveyard := [])] && s2.killedProcs == s1.killedProcs
    requires forall u :: u in s1.threads ==> (u in s2.threads <==> u !in s1.cpus[c].graveyard)
    requires forall u :: u in s2.threads ==> u in s1.threads && s2.threads[u] == s1.threads[u]
    ensures Cleared(s, c, trapUser, Bury(s2, c, trapUser))
  {
    hide EachOnce, QueuesOk, ListsOk, RefsOk, Fifo;
  }

  // ---------- What sched_schedule chooses ----------

  /** One that gives way is saved in the mode of the trap, and one that takes over gets a slice. */
  predicate ThreadAfter(s: State, c: nat, trapUser: bool, load: nat, r: State, u: Tid)
    requires c < |s.cpus| && c < |r.cpus| && u in s.threads && u in r.threads
  {
    var ran, runs := s.cpus[c].run == Some(u), r.cpus[c].run == Some(u);
    var a := s.threads[u];
    r.threads[u] == a.(userMode := if ran && !runs then trapUser else a.userMode,
                       timeEnd := if runs && !ran then (load + TIME_SLICE) % TIMES else a.timeEnd)
  }

  /** From s to r CPU c chose what it runs: it freed only dead threads, and took one that is not. */
  ghost predicate Dispatched(s: State, c: nat, trapUser: bool, load: nat, r: State) {
    && |r.cpus| == |s.cpus| && c < |s.cpus| && r.killedProcs == s.killedProcs && CpusOk(s.cpus) && CpusOk(r.cpus)
    && (forall d :: 0 <= d < |s.cpus| && d != c ==> r.cpus[d] == s.cpus[d])
    && r.cpus[c].graveyard == s.cpus[c].graveyard
    && (forall q :: 0 <= q < LEVELS ==> Fifo(s.cpus[c].queues[q], r.cpus[c].queues[q]))
    && (forall u :: u in r.threads ==> u in s.threads && ThreadAfter(s, c, trapUser, load, r, u))
    && (forall u :: u in s.threads && u !in r.threads ==> Dead(s, u))
    && (r.cpus[c].run.Some? && r.cpus[c].run != s.cpus[c].run ==>
          r.cpus[c].run.value in r.threads && !Dead(s, r.cpus[c].run.value))
  }

  lemma FindDrops(s: State, c: nat, lo: nat)
    requires Inv(s) && c < |s.cpus|
    ensures var (n, r) := Find(s, c, lo, LEVELS - 1);
            && CpusOk(s.cpus) && CpusOk(r.cpus) && c < |r.cpus|
            && (forall q :: 0 <= q < LEVELS ==> Fifo(s.cpus[c].queues[q], r.cpus[c].queues[q]))
            && (forall u :: u in s.threads && u !in r.threads ==> Dead(s, u))
            && (n.Some? ==> !Dead(s, n.value))
  {
    hide EachOnce, QueuesOk, ListsOk, RefsOk, Dead, Fifo;
    FindIs(s, c, lo, LEVELS - 1);
    var (n, r) := Find(s, c, lo, LEVELS - 1);
    forall q | 0 <= q < LEVELS ensures Fifo(s.cpus[c].queues[q], r.cpus[c].queues[q]) {
      assert QueueAfter(s, s.cpus[c], lo, n, r.cpus[c], q);
      FifoDrop(s.cpus[c].queues[q], Passed(s, lo, n, s.cpus[c].queues[q], q) + Taken(s, n, q));
    }
    forall u | u in s.threads && u !in r.threads ensures Dead(s, u) {
      PassedAreDead(s, s.cpus[c], lo, n, u);
    }
  }

  lemma PassedAreDead(s: State, x: Context, lo: nat, n: Option<Tid>, u: Tid)
    requires ContextOk(x) && WasPassed(s, x, lo, n, u)
    ensures Dead(s, u)
  {
    hide Dead;
  }

  lemma IdleIs(s: State, c: nat, trapUser: bool, now: nat)
    requires Inv(s) && c < |s.cpus| && s.cpus[c].run == None
    ensures Dispatched(s, c, trapUser, now, DispatchIdle(s, c, now))
  {
    hide EachOnce, QueuesOk, ListsOk, RefsOk, InQueues, Dead, Fifo;
    FindDrops(s, c, 0);
  }

  /** From s to m a search of CPU c freed dead threads and shortened queues. */
  ghost predicate OnlyDead(s: State, c: nat, m: State) {
    && CpusOk(s.cpus) && CpusOk(m.cpus) && c < |s.cpus| && c < |m.cpus| && Searched(s, c, m)
    && (forall q :: 0 <= q < LEVELS ==> Fifo(s.cpus[c].queues[q], m.cpus[c].queues[q]))
    && (forall u :: u in s.threads && u !in m.threads ==> Dead(s, u))
  }

  lemma RunningIs(s: State, c: nat, trapUser: bool, clock: Clock)
    requires Inv(s) && Running(s, c) && s.threads[s.cpus[c].run.value].blocker == None
    ensures Dispatched(s, c, trapUser, clock.load, DispatchRunning(s, c, trapUser, clock))
  {
    hide EachOnce, QueuesOk, ListsOk, RefsOk, InQueues, Dead, Fifo, Dispatched, Switch, Searched;
    var t := s.cpus[c].run.value;
    var lo := if s.threads[t].timeEnd < clock.check then 0 else s.threads[t].priority + 1;
    FindDrops(s, c, lo);
    var (n, s1) := Find(s, c, lo, LEVELS - 1);
    SearchKeepsRun(s, c, s1);
    RunningIsNowhereElse(s1, n, c, t);
    if n.Some? {
      SwitchIs(s, s1, c, t, n.value, trapUser, clock.load);
    } else {
      StayIs(s, s1, c, trapUser, clock.load);
    }
  }

  lemma SearchKeepsRun(s: State, c: nat, r: State)
    requires CpusOk(s.cpus) && c < |s.cpus| && Searched(s, c, r)
    ensures c < |r.cpus| && r.cpus[c].run == s.cpus[c].run
  {
  }

  lemma StayIs(s: State, m: State, c: nat, trapUser: bool, load: nat)
    requires OnlyDead(s, c, m)
    ensures Dispatched(s, c, trapUser, load, m)
  {
    hide Dead, Fifo, InQueues;
  }

  lemma SwitchIs(s: State, m: State, c: nat, t: Tid, n: Tid, trapUser: bool, load: nat)
    requires OnlyDead(s, c, m) && Shape(m) && s.cpus[c].run == Some(t) && t in m.threads && n in m.threads && t != n
    requires !Dead(s, n)
    ensures Dispatched(s, c, trapUser, load, Switch(m, c, t, n, trapUser, load))
  {
    hide Dead, Fifo, InQueues;
    SwitchQueues(s, m, c, t);
  }

  lemma SwitchQueues(s: State, m: State, c: nat, t: Tid)
    requires Shape(m) && CpusOk(s.cpus) && c < |s.cpus| && c < |m.cpus| && t in m.threads
    requires forall q :: 0 <= q < LEVELS ==> Fifo(s.cpus[c].queues[q], m.cpus[c].queues[q])
    ensures forall q :: 0 <= q < LEVELS ==>
      Fifo(s.cpus[c].queues[q], Enqueue(m.cpus[c], m.threads[t].priority, t).queues[q])
  {
    hide Fifo;
    forall q | 0 <= q < LEVELS
      ensures Fifo(s.cpus[c].queues[q], Enqueue(m.cpus[c], m.threads[t].priority, t).queues[q])
    {
      FifoPush(m.cpus[c].queues[q], t);
      FifoTrans(s.cpus[c].queues[q], m.cpus[c].queues[q], m.cpus[c].queues[q] + [t]);
    }
  }

  /** The thread that asked to block is in its list when the CPU chooses, so that it is not chosen. */
  lemma BlockedIs(s: State, c: nat, trapUser: bool, now: nat)
    requires Inv(s) && Running(s, c) && s.threads[s.cpus[c].run.value].blocker.Some?
    ensures var r, t := DispatchBlocked(s, c, trapUser, now), s.cpus[c].run.value;
            var b := s.threads[t].blocker.value;
            && Dispatched(s, c, trapUser, now, r) && b < |r.blockers| && t in r.blockers[b] && t in r.threads
  {
    hide EachOnce, QueuesOk, ListsOk, RefsOk, Park, DispatchIdle, Dead, Fifo;
    var t := s.cpus[c].run.value;
    var b := s.threads[t].blocker.value;
    ParkKeeps(s, c, trapUser);
    ParkIs(s, c, trapUser);
    var m := Park(s, c, trapUser);
    IdleIs(m, c, trapUser, now);
    IdleKeepsLists(m, c, now);
    var r := DispatchIdle(m, c, now);
    ListedIsNowhereElse(r, None, b, t);
    RunningIsNowhereElse(s, None, c, t);
    DispatchedAfterPark(s, m, c, trapUser, now, r, t);
  }

  lemma ParkIs(s: State, c: nat, trapUser: bool)
    requires Inv(s) && Running(s, c) && s.threads[s.cpus[c].run.value].blocker.Some?
    requires var b := s.threads[s.cpus[c].run.value].blocker.value;
             b < |s.blockers| && forall u :: u in s.blockers[b] ==> u in s.threads
    ensures var r, t := Park(s, c, trapUser), s.cpus[c].run.value; var b := s.threads[t].blocker.value;
            && r.threads == s.threads[t := s.threads[t].(userMode := trapUser)] && r.killedProcs == s.killedProcs
            && |r.blockers| == |s.blockers| && t in r.blockers[b]
  {
    hide EachOnce, QueuesOk, ListsOk, RefsOk, Insert;
    var t := s.cpus[c].run.value;
    var m := SetThread(DropRun(s, c), t, Saved(s.threads[t], trapUser));
    InsertMembers(s.blockers[s.threads[t].blocker.value], m.threads, t);
  }

  lemma DispatchedAfterPark(s: State, m: State, c: nat, trapUser: bool, now: nat, r: State, t: Tid)
    requires Dispatched(m, c, trapUser, now, r) && c < |s.cpus| && s.cpus[c].run == Some(t) && t in s.threads
    requires CpusOk(s.cpus) && m.cpus == s.cpus[c := s.cpus[c].(run := None)] && m.killedProcs == s.killedProcs
    requires m.threads == s.threads[t := s.threads[t].(userMode := trapUser)]
    requires t in r.threads && r.cpus[c].run != Some(t)
    ensures Dispatched(s, c, trapUser, now, r)
  {
    hide Fifo;
  }

  lemma DispatchIs(s: State, c: nat, trapUser: bool, clock: Clock)
    requires Inv(s) && c < |s.cpus| && (s.cpus[c].run.Some? ==> s.cpus[c].run.value in s.threads)
    ensures Dispatched(s, c, trapUser, clock.load, Dispatch(s, c, trapUser, clock))
  {
    hide InvOut, Dispatched, DispatchIdle, DispatchRunning, DispatchBlocked;
    if s.cpus[c].run.None? {
      IdleIs(s, c, trapUser, clock.load);
    } else if s.threads[s.cpus[c].run.value].blocker.Some? {
      BlockedIs(s, c, trapUser, clock.load);
    } else {
      RunningIs(s, c, trapUser, clock);
    }
  }

  // ---------- What any event does ----------

  /** The event is a call of sched_schedule on CPU c that goes ahead. */
  predicate Chooses(e: Event, c: nat) { e.Tick? && e.c == c && e.trapDepth <= 1 }

  /** u exits by itself, or takes its process with it. */
  predicate Exits(s: State, e: Event, u: Tid) {
    (e.ThreadExit? || e.ProcessExit?) && e.c < |s.cpus| && s.cpus[e.c].run == Some(u)
  }

  function KilledBy(s: State, e: Event): set<Pid> {
    if e.ProcessExit? && Running(s, e.c) then {s.threads[s.cpus[e.c].run.value].process} else {}
  }

  predicate Buries(s: State, e: Event, c: nat, u: Tid) { Chooses(e, c) && MustGo(s, c, u, e.trapUser) }

  predicate Frees(s: State, e: Event, u: Tid) {
    e.Tick? && e.trapDepth <= 1 && e.c < |s.cpus| && (u in s.cpus[e.c].graveyard || Dead(s, u))
  }

  ghost predicate CpuKept(s: State, e: Event, r: State, c: nat)
    requires c < |s.cpus| && c < |r.cpus| && CpusOk(s.cpus) && CpusOk(r.cpus)
  {
    && (forall q :: 0 <= q < LEVELS ==> Fifo(s.cpus[c].queues[q], r.cpus[c].queues[q]))
    && (forall u :: u in r.cpus[c].graveyard ==> u in s.cpus[c].graveyard || Buries(s, e, c, u))
    && (Chooses(e, c) || (r.cpus[c].run == s.cpus[c].run && r.cpus[c].graveyard == s.cpus[c].graveyard))
  }

  predicate ThreadKept(s: State, e: Event, r: State, u: Tid) {
    match (u in s.threads, u in r.threads)
    case (true, true) =>
      && r.threads[u].process == s.threads[u].process && r.threads[u].priority == s.threads[u].priority
      && (r.threads[u].killed <==> s.threads[u].killed || Exits(s, e, u))
    case (true, false) => Frees(s, e, u)
    case (false, true) => e.Spawn? && e.t == u && !r.threads[u].killed
    case (false, false) => true
  }

  ghost predicate EventKept(s: State, e: Event, r: State) {
    && |r.cpus| == |s.cpus| && CpusOk(s.cpus) && CpusOk(r.cpus)
    && (forall c :: 0 <= c < |s.cpus| ==> CpuKept(s, e, r, c))
    && (forall u :: ThreadKept(s, e, r, u)) && r.killedProcs == s.killedProcs + KilledBy(s, e)
  }

  lemma QuietIsKept(s: State, e: Event, r: State)
    requires Quiet(s, r) && CpusOk(s.cpus) && CpusOk(r.cpus) && !e.ThreadExit? && !e.ProcessExit?
    ensures EventKept(s, e, r)
  {
    hide Fifo;
  }

  lemma TickIsKept(s: State, e: Event, m: State, r: State)
    requires e.Tick? && e.trapDepth <= 1 && Cleared(s, e.c, e.trapUser, m)
    requires Dispatched(m, e.c, e.trapUser, e.clock.load, r)
    ensures EventKept(s, e, r)
  {
    hide Fifo, CpuKept, ThreadKept;
    forall c | 0 <= c < |s.cpus| ensures CpuKept(s, e, r, c) { TickKeepsCpu(s, e, m, r, c); }
    forall u ensures ThreadKept(s, e, r, u) { TickKeepsThread(s, e, m, r, u); }
  }

  lemma TickKeepsCpu(s: State, e: Event, m: State, r: State, c: nat)
    requires e.Tick? && e.trapDepth <= 1 && Cleared(s, e.c, e.trapUser, m)
    requires Dispatched(m, e.c, e.trapUser, e.clock.load, r) && c < |s.cpus|
    ensures CpuKept(s, e, r, c)
  {
    hide Fifo, ThreadAfter, Dead;
    if c == e.c {
      forall q | 0 <= q < LEVELS ensures Fifo(s.cpus[c].queues[q], r.cpus[c].queues[q]) {
        FifoTrans(s.cpus[c].queues[q], m.cpus[c].queues[q], r.cpus[c].queues[q]);
      }
    }
  }

  lemma TickKeepsThread(s: State, e: Event, m: State, r: State, u: Tid)
    requires e.Tick? && e.trapDepth <= 1 && Cleared(s, e.c, e.trapUser, m)
    requires Dispatched(m, e.c, e.trapUser, e.clock.load, r)
    ensures ThreadKept(s, e, r, u)
  {
    hide Fifo, QuietCpu, CpusOk;
  }

  lemma RunningChangeIsKept(s: State, e: Event, r: State, t: Tid)
    requires CpusOk(s.cpus) && r.cpus == s.cpus && r.killedProcs == s.killedProcs + KilledBy(s, e)
    requires t in s.threads && t in r.threads && r.threads == s.threads[t := r.threads[t]]
    requires r.threads[t].process == s.threads[t].process && r.threads[t].priority == s.threads[t].priority
    requires forall u :: Exits(s, e, u) ==> u == t
    requires r.threads[t].killed <==> s.threads[t].killed || Exits(s, e, t)
    ensures EventKept(s, e, r)
  {
    hide Fifo, Exits;
    forall c, q | 0 <= c < |s.cpus| && 0 <= q < LEVELS ensures Fifo(s.cpus[c].queues[q], r.cpus[c].queues[q]) {
      FifoRefl(s.cpus[c].queues[q]);
    }
  }

  lemma SpawnIsKept(s: State, t: Tid, p: Pid, priority: nat)
    requires Inv(s) && t !in s.threads
    ensures EventKept(s, Spawn(t, p, priority), Step(s, Spawn(t, p, priority)))
  {
    hide EachOnce, QueuesOk, ListsOk, RefsOk, Fifo, LeastLoaded, Enqueue;
    var m := AddThread(s, t, NewThread(p, priority));
    var best := LeastLoaded(m.cpus);
    EnqueueQuiet(m.cpus[best], NewThread(p, priority).priority, t);
    forall c | 0 <= c < |s.cpus| ensures QuietCpu(s.cpus[c], s.cpus[c]) { QuietCpuRefl(s.cpus[c]); }
  }

  /** Every event keeps the order of ready queues, buries whom it must, frees only the buried and the dead, and changes
      neither process nor priority of a thread. */
  lemma StepIsKept(s: State, e: Event)
    requires Inv(s) && Enabled(s, e)
    ensures EventKept(s, e, Step(s, e))
  {
    hide EachOnce, QueuesOk, ListsOk, RefsOk, EventKept, Quiet, Cleared, Dispatched;
    match e
    case Tick(c, trapDepth, trapUser, clock) =>
      if trapDepth <= 1 {
        PreparedIs(s, c, trapUser, clock.pass);
        var m := Prepared(s, c, trapUser, clock.pass);
        DispatchIs(m, c, trapUser, clock);
        TickIsKept(s, e, m, Step(s, e));
      } else {
        QuietRefl(s);
        QuietIsKept(s, e, s);
      }
    case Unblock(b) =>
      UnblockIsQuiet(s, b);
      QuietIsKept(s, e, Step(s, e));
    case Spawn(t, p, priority) => SpawnIsKept(s, t, p, priority);
    case NewBlocker =>
      NewListIsQuiet(s);
      QuietIsKept(s, e, Step(s, e));
    case Block(c, _, _, _) => RunningChangeIsKept(s, e, Step(s, e), s.cpus[c].run.value);
    case Yield(c) => RunningChangeIsKept(s, e, Step(s, e), s.cpus[c].run.value);
    case ThreadExit(c) => RunningChangeIsKept(s, e, Step(s, e), s.cpus[c].run.value);
    case ProcessExit(c) => RunningChangeIsKept(s, e, Step(s, e), s.cpus[c].run.value);
  }

  lemma NewListIsQuiet(s: State)
    requires CpusOk(s.cpus)
    ensures Quiet(s, s.(blockers := s.blockers + [[]]))
  {
    QuietRefl(s);
    hide QuietCpu;
  }

  // ---------- Over runs: who leaves, and why ----------

  lemma RunKept(states: seq<State>, es: seq<Event>, i: nat)
    requires Run(states, es) && i + 1 < |states|
    ensures i < |es| && EventKept(states[i], es[i], states[i + 1])
  {
    hide InvOut, Run, Step, Enabled, EventKept;
    RunStep(states, es, i);
    StepIsKept(states[i], es[i]);
  }

  /** Ready queues are first in, first out over every run: what is left of a queue stands in front, in its order. */
  lemma {:induction false} ReadyInOrder(states: seq<State>, es: seq<Event>, i: nat, j: nat, c: nat, q: nat)
    requires Run(states, es) && i <= j < |states| && c < |states[i].cpus| && q < LEVELS
    ensures |states[j].cpus| == |states[i].cpus| && CpusOk(states[i].cpus) && CpusOk(states[j].cpus)
    ensures Fifo(states[i].cpus[c].queues[q], states[j].cpus[c].queues[q])
    decreases j
  {
    hide EachOnce, QueuesOk, ListsOk, RefsOk, Run, Fifo;
    if i < j {
      ReadyInOrder(states, es, i, j - 1, c, q);
      RunKept(states, es, j - 1);
      assert CpuKept(states[j - 1], es[j - 1], states[j], c);
      FifoTrans(states[i].cpus[c].queues[q], states[j - 1].cpus[c].queues[q], states[j].cpus[c].queues[q]);
    } else {
      RunKeeps(states, es, i);
      FifoRefl(states[i].cpus[c].queues[q]);
    }
  }

  lemma RunLength(states: seq<State>, es: seq<Event>)
    requires Run(states, es)
    ensures |states| == |es| + 1
  {
  }

  /** At the start nobody is killed and nobody buried. */
  lemma BootIsClean(states: seq<State>, es: seq<Event>)
    requires Run(states, es)
    ensures var s := states[0];
            && s.killedProcs == {} && (forall u :: u in s.threads ==> !s.threads[u].killed)
            && forall c :: 0 <= c < |s.cpus| ==> s.cpus[c].graveyard == []
  {
    assert Boot(states[0]);
  }

  /** A killed thread was killed by an event of its own life. */
  lemma {:induction false} WhyKilled(states: seq<State>, es: seq<Event>, i: nat, u: Tid) returns (k: nat)
    requires Run(states, es) && i < |states| && u in states[i].threads && states[i].threads[u].killed
    ensures k < i && Exits(states[k], es[k], u) && forall m :: k <= m <= i ==> u in states[m].threads
    decreases i
  {
    hide Run, Exits, Frees;
    BootIsClean(states, es);
    RunKept(states, es, i - 1);
    assert ThreadKept(states[i - 1], es[i - 1], states[i], u);
    if Exits(states[i - 1], es[i - 1], u) { return i - 1; }
    k := WhyKilled(states, es, i - 1, u);
  }

  /** And a killed process by one of its threads. */
  lemma {:induction false} WhyProcess(states: seq<State>, es: seq<Event>, i: nat, p: Pid) returns (k: nat)
    requires Run(states, es) && i < |states| && p in states[i].killedProcs
    ensures k < i && p in KilledBy(states[k], es[k])
    decreases i
  {
    hide Run, KilledBy;
    BootIsClean(states, es);
    RunKept(states, es, i - 1);
    if p in KilledBy(states[i - 1], es[i - 1]) { return i - 1; }
    k := WhyProcess(states, es, i - 1, p);
  }

  /** A thread in a graveyard was running there when it was buried, and had to go. */
  lemma {:induction false} WhyBuried(states: seq<State>, es: seq<Event>, i: nat, c: nat, u: Tid) returns (k: nat)
    requires Run(states, es) && i < |states| && c < |states[i].cpus| && u in states[i].cpus[c].graveyard
    ensures k < i && Buries(states[k], es[k], c, u)
    ensures forall m :: k < m <= i ==> c < |states[m].cpus| && u in states[m].cpus[c].graveyard
    decreases i
  {
    hide Run, Buries, Fifo;
    BootIsClean(states, es);
    RunKept(states, es, i - 1);
    assert CpuKept(states[i - 1], es[i - 1], states[i], c);
    if Buries(states[i - 1], es[i - 1], c, u) { return i - 1; }
    k := WhyBuried(states, es, i - 1, c, u);
  }

  /** A thread leaves only in a call of sched_schedule: from the graveyard, into which it came when it was running and
      was killed or trapped from user mode after its process was killed; or from a ready queue, in user mode, after its
      process was killed. */
  lemma LeavesOnly(states: seq<State>, es: seq<Event>, i: nat, u: Tid) returns (k: nat)
    requires Run(states, es) && i < |es| && u in states[i].threads && u !in states[i + 1].threads
    ensures k <= i && es[i].Tick? && es[i].trapDepth <= 1
    ensures
      || (states[i].threads[u].process in states[i].killedProcs && states[i].threads[u].userMode)
      || (k < i && Buries(states[k], es[k], es[i].c, u)
       && forall m :: k < m <= i ==> es[i].c < |states[m].cpus| && u in states[m].cpus[es[i].c].graveyard)
  {
    hide Run, Buries;
    RunLength(states, es);
    RunKept(states, es, i);
    assert ThreadKept(states[i], es[i], states[i + 1], u);
    k := i;
    if !Dead(states[i], u) { k := WhyBuried(states, es, i, es[i].c, u); }
  }

  lemma {:induction false} DutyKept(states: seq<State>, es: seq<Event>, i: nat, j: nat, u: Tid)
    requires Run(states, es) && i <= j < |states| && forall m :: i <= m <= j ==> u in states[m].threads
    ensures states[j].threads[u].process == states[i].threads[u].process
    ensures states[j].threads[u].priority == states[i].threads[u].priority
    decreases j
  {
    if i < j {
      hide Run, Exits, Frees;
      DutyKept(states, es, i, j - 1, u);
      RunKept(states, es, j - 1);
      assert ThreadKept(states[j - 1], es[j - 1], states[j], u);
    }
  }

  lemma GraveyardLives(states: seq<State>, es: seq<Event>, i: nat, c: nat, u: Tid)
    requires Run(states, es) && i < |states| && c < |states[i].cpus| && u in states[i].cpus[c].graveyard
    ensures u in states[i].threads
  {
    hide InvOut, Run;
    RunKeeps(states, es, i);
    BuriedIsNotReady(states[i], c, u);
  }

  /** Nobody is freed unasked: before a thread leaves, it called for its own exit, or a thread of its process for that
      of the process. */
  lemma NobodyLeavesUnasked(states: seq<State>, es: seq<Event>, i: nat, u: Tid) returns (k: nat)
    requires Run(states, es) && i < |es| && u in states[i].threads && u !in states[i + 1].threads
    ensures k < i
    ensures Exits(states[k], es[k], u) || states[i].threads[u].process in KilledBy(states[k], es[k])
  {
    hide Run, Exits, KilledBy;
    RunLength(states, es);
    k := LeavesOnly(states, es, i, u);
    if Dead(states[i], u) {
      k := WhyProcess(states, es, i, states[i].threads[u].process);
    } else {
      var m := k;
      forall n | m < n <= i ensures u in states[n].threads { GraveyardLives(states, es, n, es[i].c, u); }
      if states[m].threads[u].killed {
        k := WhyKilled(states, es, m, u);
      } else {
        DutyKept(states, es, m, i, u);
        k := WhyProcess(states, es, m, states[m].threads[u].process);
      }
    }
  }

  // ---------- What happens to the running thread ----------

  /** The events of the thread that runs on c, and the calls of sched_schedule there. */
  predicate ActsOn(e: Event, c: nat) {
    Chooses(e, c) || ((e.Block? || e.Yield? || e.ThreadExit? || e.ProcessExit?) && e.c == c)
  }

  /** A call of sched_schedule that goes ahead, in two halves. */
  lemma TickIs(s: State, e: Event) returns (m: State)
    requires Inv(s) && Enabled(s, e) && e.Tick? && e.trapDepth <= 1
    ensures Inv(m) && m == Prepared(s, e.c, e.trapUser, e.clock.pass) && Cleared(s, e.c, e.trapUser, m)
    ensures (m.cpus[e.c].run.Some? ==> m.cpus[e.c].run.value in m.threads)
    ensures Step(s, e) == Dispatch(m, e.c, e.trapUser, e.clock)
    ensures Dispatched(m, e.c, e.trapUser, e.clock.load, Step(s, e))
  {
    hide InvOut, Cleared, Dispatched, Dispatch;
    PreparedIs(s, e.c, e.trapUser, e.clock.pass);
    m := Prepared(s, e.c, e.trapUser, e.clock.pass);
    ClearedShape(s, e.c, e.trapUser, m);
    DispatchIs(m, e.c, e.trapUser, e.clock);
  }

  lemma ClearedShape(s: State, c: nat, trapUser: bool, m: State)
    requires Cleared(s, c, trapUser, m)
    ensures c < |m.cpus| == |s.cpus|
  {
  }

  /** Waking others leaves a running thread alone. */
  lemma PreparedSpares(s: State, c: nat, trapUser: bool, now: nat, d: nat, u: Tid)
    requires Inv(s) && c < |s.cpus| && d < |s.cpus| && s.cpus[d].run == Some(u) && u in s.threads
    ensures var m := Prepared(s, c, trapUser, now); u in m.threads && m.threads[u] == s.threads[u]
  {
    hide InvOut;
    if c == 0 { TimeoutsSpareRunning(s, 0, now, d, u); }
    var s1 := if c == 0 then TimeoutsFrom(s, 0, now) else s;
    RunningIsNowhereElse(s1, None, d, u);
  }

  lemma TickSparesOthers(s: State, e: Event, d: nat, u: Tid)
    requires Inv(s) && Enabled(s, e) && e.Tick? && e.trapDepth <= 1 && e.c != d
    requires d < |s.cpus| && s.cpus[d].run == Some(u) && u in s.threads
    ensures var r := Step(s, e);
            u in r.threads && r.threads[u] == s.threads[u] && d < |r.cpus| && r.cpus[d].run == Some(u)
  {
    hide InvOut, Prepared, Dispatch, Fifo;
    var m := TickIs(s, e);
    PreparedSpares(s, e.c, e.trapUser, e.clock.pass, d, u);
    RunningIsNowhereElse(m, None, d, u);
    RunningIsNowhereElse(Step(s, e), None, d, u);
  }

  /** No event but its own, and the calls of sched_schedule on its CPU, touches a running thread. */
  lemma RunningUntouched(s: State, e: Event, d: nat, u: Tid)
    requires Inv(s) && Enabled(s, e) && !ActsOn(e, d) && d < |s.cpus| && s.cpus[d].run == Some(u)
    ensures var r := Step(s, e);
            && u in s.threads && u in r.threads && r.threads[u] == s.threads[u] && d < |r.cpus|
            && r.cpus[d].run == Some(u)
  {
    hide EachOnce, QueuesOk, ListsOk, RefsOk, Prepared, Dispatch;
    RunningIsNowhereElse(s, None, d, u);
    StepIsKept(s, e);
    assert CpuKept(s, e, Step(s, e), d);
    match e
    case Tick(c, trapDepth, trapUser, clock) => if trapDepth <= 1 { TickSparesOthers(s, e, d, u); }
    case Unblock(b) => UnblockWakes(s, b, u);
    case Block(c, _, _, _) => OtherRuns(s, c, d, u);
    case Yield(c) => OtherRuns(s, c, d, u);
    case ThreadExit(c) => OtherRuns(s, c, d, u);
    case ProcessExit(c) => OtherRuns(s, c, d, u);
    case _ =>
  }

  lemma OtherRuns(s: State, c: nat, d: nat, u: Tid)
    requires Inv(s) && c < |s.cpus| && d < |s.cpus| && c != d && s.cpus[d].run == Some(u)
    ensures s.cpus[c].run != Some(u)
  {
    RunningIsNowhereElse(s, None, d, u);
    hide InvOut;
  }

  /** So it stays as it is for as long as only others act. */
  lemma {:induction false} RunsOn(states: seq<State>, es: seq<Event>, i: nat, j: nat, c: nat, t: Tid)
    requires Run(states, es) && i <= j < |states| && c < |states[i].cpus| && states[i].cpus[c].run == Some(t)
    requires forall k :: i <= k < j ==> !ActsOn(es[k], c)
    ensures c < |states[j].cpus| && states[j].cpus[c].run == Some(t) && t in states[i].threads && t in states[j].threads
    ensures states[j].threads[t] == states[i].threads[t]
    decreases j
  {
    hide InvOut, Run, Step, Enabled, ActsOn;
    if i < j {
      RunsOn(states, es, i, j - 1, c, t);
      RunStep(states, es, j - 1);
      RunningUntouched(states[j - 1], es[j - 1], c, t);
    } else {
      RunKeeps(states, es, i);
      RunningLives(states[i], c);
    }
  }

  /** The running thread is buried exactly if it must go; otherwise it goes on as it is, or is saved in the mode of the
      trap. */
  lemma BuriedIff(states: seq<State>, es: seq<Event>, i: nat, c: nat, t: Tid)
    requires Run(states, es) && i < |es| && Chooses(es[i], c)
    requires c < |states[i].cpus| && states[i].cpus[c].run == Some(t)
    ensures var r := states[i + 1];
            && c < |r.cpus| && t in states[i].threads && t in r.threads
            && (t in r.cpus[c].graveyard <==> MustGo(states[i], c, t, es[i].trapUser))
            && (MustGo(states[i], c, t, es[i].trapUser) ==> r.cpus[c].run != Some(t))
            && (!MustGo(states[i], c, t, es[i].trapUser) ==>
                  r.threads[t] == states[i].threads[t].(
                    userMode := if r.cpus[c].run == Some(t) then states[i].threads[t].userMode else es[i].trapUser))
  {
    hide EachOnce, QueuesOk, ListsOk, RefsOk, Run, Step, Prepared, Dispatch, Fifo;
    RunLength(states, es);
    RunStep(states, es, i);
    var m := TickIs(states[i], es[i]);
    PreparedSpares(states[i], c, es[i].trapUser, es[i].clock.pass, c, t);
    if m.cpus[c].run == None {
      BuriedIsNotReady(m, c, t);
      BuriedDoesNotRun(states[i + 1], c, t);
    }
    RunningOutlivesEvent(states, es, i, c, t);
  }

  /** One that neither goes on nor has to go, and does not block, is ready on its CPU. */
  lemma DisplacedIsReady(states: seq<State>, es: seq<Event>, i: nat, c: nat, t: Tid)
    requires Run(states, es) && i < |es| && Chooses(es[i], c) && c < |states[i].cpus| && c < |states[i + 1].cpus|
    requires states[i].cpus[c].run == Some(t) && states[i + 1].cpus[c].run != Some(t)
    requires t in states[i].threads && states[i].threads[t].blocker == None && !MustGo(states[i], c, t, es[i].trapUser)
    ensures ContextOk(states[i + 1].cpus[c]) && states[i].threads[t].priority < LEVELS
    ensures t in states[i + 1].cpus[c].queues[states[i].threads[t].priority]
  {
    hide EachOnce, QueuesOk, ListsOk, RefsOk, Run, Step, Prepared, Fifo, DispatchIdle, DispatchBlocked;
    RunLength(states, es);
    RunStep(states, es, i);
    var m := TickIs(states[i], es[i]);
    PreparedSpares(states[i], c, es[i].trapUser, es[i].clock.pass, c, t);
    SwitchedIsReady(m, c, es[i].trapUser, es[i].clock, t);
  }

  lemma SwitchedIsReady(m: State, c: nat, trapUser: bool, clock: Clock, t: Tid)
    requires Inv(m) && Running(m, c) && m.cpus[c].run == Some(t) && m.threads[t].blocker == None
    ensures var r := DispatchRunning(m, c, trapUser, clock);
            && c < |r.cpus| && ContextOk(r.cpus[c]) && m.threads[t].priority < LEVELS
            && (r.cpus[c].run != Some(t) ==> t in r.cpus[c].queues[m.threads[t].priority])
  {
    hide EachOnce, QueuesOk, ListsOk, RefsOk;
    var lo := if m.threads[t].timeEnd < clock.check then 0 else m.threads[t].priority + 1;
    var (n, s1) := Find(m, c, lo, LEVELS - 1);
    RunningIsNowhereElse(s1, n, c, t);
  }

  lemma BuriedDoesNotRun(s: State, c: nat, t: Tid)
    requires Inv(s) && c < |s.cpus| && t in s.cpus[c].graveyard
    ensures s.cpus[c].run != Some(t)
  {
    if s.cpus[c].run == Some(t) { RunningIsNowhereElse(s, None, c, t); }
    hide InvOut;
  }

  /** A thread that takes over may run for a slice, and is not one of a killed process that would run in user mode. */
  lemma SliceStarts(states: seq<State>, es: seq<Event>, i: nat, c: nat, t: Tid)
    requires Run(states, es) && i < |es| && c < |states[i].cpus| && c < |states[i + 1].cpus|
    requires states[i + 1].cpus[c].run == Some(t) && states[i].cpus[c].run != Some(t)
    ensures Chooses(es[i], c) && t in states[i].threads && t in states[i + 1].threads
    ensures !(states[i].threads[t].process in states[i].killedProcs && states[i].threads[t].userMode)
    ensures states[i + 1].threads[t].timeEnd == (es[i].clock.load + TIME_SLICE) % TIMES
  {
    hide EachOnce, QueuesOk, ListsOk, RefsOk, Run, Step, Prepared, Dispatch, Fifo;
    RunLength(states, es);
    RunStep(states, es, i);
    RunKept(states, es, i);
    assert CpuKept(states[i], es[i], states[i + 1], c);
    var m := TickIs(states[i], es[i]);
    RunningLives(states[i + 1], c);
  }

  // ---------- What a thread asks for ----------

  /** A thread that exits, or takes its process with it, is buried by the next call of sched_schedule on its CPU, and
      freed by the one after that. */
  lemma ExitIsFinal(states: seq<State>, es: seq<Event>, i: nat, j: nat, m: nat, t: Tid)
    requires Run(states, es) && i < j < m < |es| && Exits(states[i], es[i], t)
    requires Chooses(es[j], es[i].c) && (forall k :: i < k < j ==> !ActsOn(es[k], es[i].c))
    requires Chooses(es[m], es[i].c) && (forall k :: j < k < m ==> !Chooses(es[k], es[i].c))
    ensures t in states[j + 1].threads && t !in states[m + 1].threads
  {
    hide InvOut, Run, Step, Enabled, ActsOn, Chooses, EventKept;
    RunLength(states, es);
    ExitSets(states, es, i, t);
    RunsOn(states, es, i + 1, j, es[i].c, t);
    BuriedIff(states, es, j, es[i].c, t);
    StaysBuried(states, es, j + 1, m, es[i].c, t);
    BuriedIsFreed(states, es, m, es[i].c, t);
  }

  lemma ExitSets(states: seq<State>, es: seq<Event>, i: nat, t: Tid)
    requires Run(states, es) && i < |es| && Exits(states[i], es[i], t)
    ensures var c, r := es[i].c, states[i + 1];
            c < |r.cpus| && r.cpus[c].run == Some(t) && t in r.threads && r.threads[t].killed
  {
    hide InvOut, Run;
    RunLength(states, es);
    RunStep(states, es, i);
  }

  lemma {:induction false} StaysBuried(states: seq<State>, es: seq<Event>, i: nat, j: nat, c: nat, t: Tid)
    requires Run(states, es) && i <= j < |states| && c < |states[i].cpus| && t in states[i].cpus[c].graveyard
    requires forall k :: i <= k < j ==> !Chooses(es[k], c)
    ensures c < |states[j].cpus| && t in states[j].cpus[c].graveyard
    decreases j
  {
    hide Run, Fifo, Chooses, ThreadKept;
    if i < j {
      StaysBuried(states, es, i, j - 1, c, t);
      RunKept(states, es, j - 1);
      assert CpuKept(states[j - 1], es[j - 1], states[j], c);
    }
  }

  lemma BuriedIsFreed(states: seq<State>, es: seq<Event>, i: nat, c: nat, t: Tid)
    requires Run(states, es) && i < |es| && Chooses(es[i], c)
    requires c < |states[i].cpus| && t in states[i].cpus[c].graveyard
    ensures t !in states[i + 1].threads
  {
    hide InvOut, Run, Step, Prepared, Dispatch, Fifo;
    RunLength(states, es);
    RunStep(states, es, i);
    var m := TickIs(states[i], es[i]);
    RunKeeps(states, es, i);
    BuriedIsNotReady(states[i], c, t);
  }

  /** A thread that blocks waits in the list it named, until the deadline it asked for, from the next call of
      sched_schedule on its CPU on, unless it has to go by then. */
  lemma BlocksWhereItAsked(states: seq<State>, es: seq<Event>, i: nat, j: nat, t: Tid)
    requires Run(states, es) && i < j < |es| && es[i].Block?
    requires es[i].c < |states[i].cpus| && states[i].cpus[es[i].c].run == Some(t)
    requires Chooses(es[j], es[i].c) && (forall k :: i < k < j ==> !ActsOn(es[k], es[i].c))
    requires !MustGo(states[j], es[i].c, t, es[j].trapUser)
    ensures var r, timeout := states[j + 1], es[i].timeout;
            && es[i].b < |r.blockers| && t in r.blockers[es[i].b] && t in r.threads
            && r.threads[t].deadline == if timeout == NEVER then NEVER else (timeout + es[i].now) % TIMES
  {
    hide InvOut, Run, Step, Enabled, ActsOn, Chooses, MustGo;
    RunLength(states, es);
    BlockSets(states, es, i, t);
    RunsOn(states, es, i + 1, j, es[i].c, t);
    BlockedGoes(states, es, j, es[i].c, t);
  }

  lemma BlockSets(states: seq<State>, es: seq<Event>, i: nat, t: Tid)
    requires Run(states, es) && i < |es| && es[i].Block?
    requires es[i].c < |states[i].cpus| && states[i].cpus[es[i].c].run == Some(t)
    ensures var c, r, timeout := es[i].c, states[i + 1], es[i].timeout;
            && c < |r.cpus| && r.cpus[c].run == Some(t) && t in r.threads && r.threads[t].blocker == Some(es[i].b)
            && r.threads[t].deadline == if timeout == NEVER then NEVER else (timeout + es[i].now) % TIMES
  {
    hide InvOut, Run;
    RunLength(states, es);
    RunStep(states, es, i);
  }

  lemma BlockedGoes(states: seq<State>, es: seq<Event>, j: nat, c: nat, t: Tid)
    requires Run(states, es) && j < |es| && Chooses(es[j], c)
    requires c < |states[j].cpus| && states[j].cpus[c].run == Some(t)
    requires t in states[j].threads && states[j].threads[t].blocker.Some? && !MustGo(states[j], c, t, es[j].trapUser)
    ensures var r, b := states[j + 1], states[j].threads[t].blocker.value;
            && b < |r.blockers| && t in r.blockers[b] && t in r.threads
            && r.threads[t].deadline == states[j].threads[t].deadline
  {
    hide EachOnce, QueuesOk, ListsOk, RefsOk, Run, Step, Prepared, Fifo, DispatchBlocked, DispatchIdle, DispatchRunning;
    RunLength(states, es);
    RunStep(states, es, j);
    var s, e := states[j], es[j];
    var m := TickIs(s, e);
    PreparedSpares(s, c, e.trapUser, e.clock.pass, c, t);
    BlockedIs(m, c, e.trapUser, e.clock.load);
  }

  /** A thread that yields gives way to every thread that is ready on its CPU: if it goes on, none is. */
  lemma YieldGivesWay(states: seq<State>, es: seq<Event>, i: nat, j: nat, t: Tid)
    requires Run(states, es) && i < j < |es| && es[i].Yield?
    requires es[i].c < |states[i].cpus| && states[i].cpus[es[i].c].run == Some(t) && t in states[i].threads
    requires states[i].threads[t].blocker == None
    requires Chooses(es[j], es[i].c) && es[j].clock.check > 0 && (forall k :: i < k < j ==> !ActsOn(es[k], es[i].c))
    ensures var c, r := es[i].c, states[j + 1];
            c < |r.cpus| && ContextOk(r.cpus[c]) && (r.cpus[c].run == Some(t) ==> r.cpus[c].queues == [[], [], []])
  {
    hide InvOut, Run, Step, Enabled, ActsOn, Chooses;
    RunLength(states, es);
    YieldSets(states, es, i, t);
    RunsOn(states, es, i + 1, j, es[i].c, t);
    ExpiredGivesWay(states, es, j, es[i].c, t);
  }

  lemma YieldSets(states: seq<State>, es: seq<Event>, i: nat, t: Tid)
    requires Run(states, es) && i < |es| && es[i].Yield?
    requires es[i].c < |states[i].cpus| && states[i].cpus[es[i].c].run == Some(t) && t in states[i].threads
    ensures var c, r := es[i].c, states[i + 1];
            && c < |r.cpus| && r.cpus[c].run == Some(t) && t in r.threads
            && r.threads[t] == states[i].threads[t].(timeEnd := 0)
  {
    hide InvOut, Run;
    RunLength(states, es);
    RunStep(states, es, i);
  }

  /** So does one whose slice is over. */
  lemma ExpiredGivesWay(states: seq<State>, es: seq<Event>, j: nat, c: nat, t: Tid)
    requires Run(states, es) && j < |es| && Chooses(es[j], c)
    requires c < |states[j].cpus| && states[j].cpus[c].run == Some(t)
    requires t in states[j].threads && states[j].threads[t].blocker == None
    requires states[j].threads[t].timeEnd < es[j].clock.check
    ensures var r := states[j + 1];
            c < |r.cpus| && ContextOk(r.cpus[c]) && (r.cpus[c].run == Some(t) ==> r.cpus[c].queues == [[], [], []])
  {
    hide EachOnce, QueuesOk, ListsOk, RefsOk, Run, Step, Prepared, Fifo, Switch, DispatchIdle;
    RunLength(states, es);
    RunStep(states, es, j);
    var s, e := states[j], es[j];
    var m := TickIs(s, e);
    PreparedSpares(s, c, e.trapUser, e.clock.pass, c, t);
    BuriedIff(states, es, j, c, t);
    if m.cpus[c].run == Some(t) { ExpiredSearch(m, c, e.trapUser, e.clock, t); }
  }

  lemma ExpiredSearch(m: State, c: nat, trapUser: bool, clock: Clock, t: Tid)
    requires Inv(m) && Running(m, c) && m.cpus[c].run == Some(t) && m.threads[t].blocker == None
    requires m.threads[t].timeEnd < clock.check
    ensures var r := DispatchRunning(m, c, trapUser, clock);
            c < |r.cpus| && (r.cpus[c].run == Some(t) ==> r.cpus[c].queues == [[], [], []])
  {
    hide EachOnce, QueuesOk, ListsOk, RefsOk;
    var (n, s1) := Find(m, c, 0, LEVELS - 1);
    RunningIsNowhereElse(s1, n, c, t);
  }

  /** A new thread is ready on the first of the least loaded CPUs, behind the others there, with the priority asked for
      or else the highest. */
  lemma SpawnedIsReady(states: seq<State>, es: seq<Event>, i: nat) returns (c: nat)
    requires Run(states, es) && i < |es| && es[i].Spawn?
    ensures var s, r, t := states[i], states[i + 1], es[i].t;
            && c < |s.cpus| == |r.cpus| && CpusOk(s.cpus) && IsLeastLoaded(s.cpus, c) && t in r.threads
            && r.threads[t].process == es[i].p
            && r.threads[t].priority == (if es[i].priority < 2 then es[i].priority else 2)
            && !r.threads[t].killed && !r.threads[t].userMode && r.threads[t].blocker == None
            && r.threads == s.threads[t := r.threads[t]] && ContextOk(r.cpus[c])
            && r.cpus[c].queues[r.threads[t].priority] == s.cpus[c].queues[r.threads[t].priority] + [t]
  {
    hide EachOnce, QueuesOk, ListsOk, RefsOk, Run;
    RunLength(states, es);
    RunStep(states, es, i);
    c := LeastLoaded(states[i].cpus);
  }

  // ---------- Where threads become ready ----------

  /** The threads that run or are ready on a CPU. */
  ghost function On(x: Context): set<Tid>
    requires ContextOk(x)
  {
    (if x.run.Some? then {x.run.value} else {}) + Elements(x.queues[0]) + Elements(x.queues[1]) + Elements(x.queues[2])
  }

  function Elements(queue: seq<Tid>): set<Tid> { set t | t in queue }

  /** The load of a CPU is the number of threads that run or are ready on it. */
  lemma LoadCounts(s: State, c: nat)
    requires Inv(s) && c < |s.cpus|
    ensures Load(s.cpus[c]) == |On(s.cpus[c])|
  {
    var x := s.cpus[c];
    forall t ensures PlacesIn(x, t) <= 1 {
      OnCpu(s.cpus, c, t);
      assert PlacesOf(s, t) + Out(None, t) == if t in s.threads then 1 else 0;
    }
    hide InvOut;
    OnceOn(x);
  }

  lemma OnceOn(x: Context)
    requires ContextOk(x) && forall t :: PlacesIn(x, t) <= 1
    ensures Load(x) == |On(x)|
  {
    forall q: nat, t | q < LEVELS ensures Occurs(x.queues[q], t) <= 1 { assert PlacesIn(x, t) <= 1; }
    forall q: nat | q < LEVELS ensures |Elements(x.queues[q])| == |x.queues[q]| { ElementCount(x.queues[q]); }
    forall t ensures t in Elements(x.queues[0]) ==> x.run != Some(t) && t !in x.queues[1] && t !in x.queues[2]
      ensures t in Elements(x.queues[1]) ==> x.run != Some(t) && t !in x.queues[2]
      ensures t in Elements(x.queues[2]) ==> x.run != Some(t)
    {
      assert PlacesIn(x, t) <= 1;
      OccursIn(x.queues[0], t);
      OccursIn(x.queues[1], t);
      OccursIn(x.queues[2], t);
    }
    hide PlacesIn, Occurs;
    var running := if x.run.Some? then {x.run.value} else {};
    Disjoint(running, Elements(x.queues[0]), Elements(x.queues[1]), Elements(x.queues[2]));
  }

  lemma Disjoint(a: set<Tid>, b: set<Tid>, c: set<Tid>, d: set<Tid>)
    requires a !! b && a !! c && a !! d && b !! c && b !! d && c !! d
    ensures |a + b + c + d| == |a| + |b| + |c| + |d|
  {
  }

  lemma {:induction false} ElementCount(queue: seq<Tid>)
    requires forall t :: Occurs(queue, t) <= 1
    ensures |Elements(queue)| == |queue|
  {
    if queue != [] {
      var rest := queue[1..];
      forall t ensures Occurs(rest, t) <= 1 && (t == queue[0] ==> t !in rest) {
        HeadOccurs(queue, t);
        OccursIn(rest, t);
      }
      ElementCount(rest);
      assert Elements(queue) == Elements(rest) + {queue[0]};
    }
  }

  /** A thread that is woken becomes ready at the end of its queue on the first of the least loaded CPUs. */
  ghost predicate BecomesReady(s: State, t: Tid, r: State) {
    && CpusOk(s.cpus) && t in s.threads && s.threads[t].priority < LEVELS
    && exists c :: 0 <= c < |s.cpus| && IsLeastLoaded(s.cpus, c) && |r.cpus| == |s.cpus| && ContextOk(r.cpus[c])
         && r.cpus == s.cpus[c := r.cpus[c]] && r.cpus[c].run == s.cpus[c].run
         && r.cpus[c].graveyard == s.cpus[c].graveyard
         && var p := s.threads[t].priority;
            r.cpus[c].queues == s.cpus[c].queues[p := s.cpus[c].queues[p] + [t]]
  }

  lemma PushedIsReady(s: State, b: Bid, th: Thread)
    requires Shape(s) && b < |s.blockers| && s.blockers[b] != [] && s.blockers[b][0] in s.threads
    requires th.priority == s.threads[s.blockers[b][0]].priority
    ensures Shape(SetThread(DropHead(s, b), s.blockers[b][0], th))
    ensures BecomesReady(s, s.blockers[b][0], Push(SetThread(DropHead(s, b), s.blockers[b][0], th), s.blockers[b][0]))
  {
    hide LeastLoaded, Load;
    assert IsLeastLoaded(s.cpus, LeastLoaded(s.cpus));
  }

  lemma WokenIsReady(s: State, b: Bid, now: nat)
    requires Inv(s) && b < |s.blockers| && s.blockers[b] != []
    ensures s.blockers[b][0] in s.threads && BecomesReady(s, s.blockers[b][0], WakeHead(s, b))
    ensures if Overdue(s, b, now) then BecomesReady(s, s.blockers[b][0], TimeoutHead(s, b, now))
            else TimeoutHead(s, b, now) == s
  {
    hide EachOnce, QueuesOk, ListsOk, RefsOk, BecomesReady, Push;
    HeadIsLive(s, b);
    var th := s.threads[s.blockers[b][0]];
    PushedIsReady(s, b, th.(deadline := 0, result := Norm, blocker := None));
    PushedIsReady(s, b, th.(result := Timeout, blocker := None));
  }
}
