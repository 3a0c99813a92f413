/**
 The scheduler as a state machine: run slots, ready queues and graveyards of every CPU, and the lists of
 blocked threads.  Each operation is one step, under the locks that the kernel takes.
 */
module Sched {
  import opened Options

  const LEVELS: nat := 3
  const NEVER: nat := 0xFFFF_FFFF_FFFF_FFFF
  const TIMES: nat := 0x1_0000_0000_0000_0000
  /** CONFIG_TIME_SLICE, in nanoseconds. */
  const TIME_SLICE: nat := 10_000_000

  type Tid = nat
  type Pid = nat
  type Bid = nat

  datatype BlockResult = Norm | Timeout

  /** userMode says whether the saved trap frame is a user-mode one. */
  datatype Thread = Thread(
    process: Pid, priority: nat, killed: bool, userMode: bool, timeEnd: nat,
    deadline: nat, result: BlockResult, blocker: Option<Bid>)

  datatype Context = Context(run: Option<Tid>, queues: seq<seq<Tid>>, graveyard: seq<Tid>)

  /** refs is process->ref for every process not yet freed, killedProcs the processes whose killed flag is set. */
  datatype State = State(
    cpus: seq<Context>, blockers: seq<seq<Tid>>, threads: map<Tid, Thread>,
    refs: map<Pid, nat>, killedProcs: set<Pid>)

  // ---------- Operations on parts ----------

  predicate ContextOk(x: Context) { |x.queues| == LEVELS }

  /** sched_context_push. */
  function Enqueue(x: Context, p: nat, t: Tid): Context
    requires ContextOk(x) && p < LEVELS
  {
    x.(queues := x.queues[p := x.queues[p] + [t]])
  }

  /** queue_pop on a non-empty queue. */
  function Dequeue(x: Context, p: nat): Context
    requires ContextOk(x) && p < LEVELS && x.queues[p] != []
  {
    x.(queues := x.queues[p := x.queues[p][1..]])
  }

  /** sched_context_thread_amount. */
  function Load(x: Context): nat
    requires ContextOk(x)
  {
    (if x.run.Some? then 1 else 0) + |x.queues[0]| + |x.queues[1]| + |x.queues[2]|
  }

  predicate CpusOk(cpus: seq<Context>) { |cpus| > 0 && forall c :: 0 <= c < |cpus| ==> ContextOk(cpus[c]) }

  /** The first of the least loaded CPUs. */
  predicate IsLeastLoaded(cpus: seq<Context>, c: nat)
    requires CpusOk(cpus)
  {
    c < |cpus| && (forall d :: 0 <= d < |cpus| ==> Load(cpus[c]) <= Load(cpus[d]))
    && (forall d :: 0 <= d < c ==> Load(cpus[c]) < Load(cpus[d]))
  }

  function LeastLoadedOf(cpus: seq<Context>, n: nat): (c: nat)
    requires CpusOk(cpus) && 0 < n <= |cpus|
    ensures c < n && (forall d :: 0 <= d < n ==> Load(cpus[c]) <= Load(cpus[d]))
    ensures (forall d :: 0 <= d < c ==> Load(cpus[c]) < Load(cpus[d]))
  {
    if n == 1 then 0
    else
      var c := LeastLoadedOf(cpus, n - 1);
      if Load(cpus[n - 1]) < Load(cpus[c]) then n - 1 else c
  }

  function LeastLoaded(cpus: seq<Context>): (c: nat)
    requires CpusOk(cpus)
    ensures IsLeastLoaded(cpus, c)
  {
    LeastLoadedOf(cpus, |cpus|)
  }

  /** Where blocker_push puts a thread: before the first one with a later deadline. */
  function InsertAt(list: seq<Tid>, threads: map<Tid, Thread>, deadline: nat): (i: nat)
    requires forall t :: t in list ==> t in threads
    ensures i <= |list| && (forall k :: 0 <= k < i ==> threads[list[k]].deadline <= deadline)
    ensures i < |list| ==> threads[list[i]].deadline > deadline
  {
    if list == [] || threads[list[0]].deadline > deadline then 0 else 1 + InsertAt(list[1..], threads, deadline)
  }

  function Insert(list: seq<Tid>, threads: map<Tid, Thread>, t: Tid): seq<Tid>
    requires t in threads && forall u :: u in list ==> u in threads
  {
    var i := InsertAt(list, threads, threads[t].deadline);
    list[..i] + [t] + list[i..]
  }

  // ---------- Operations on the state ----------

  predicate Shape(s: State) {
    CpusOk(s.cpus) && forall t :: t in s.threads ==> s.threads[t].priority < LEVELS
  }

  function SetCpu(s: State, c: nat, x: Context): State
    requires c < |s.cpus|
  {
    s.(cpus := s.cpus[c := x])
  }

  function SetThread(s: State, t: Tid, th: Thread): State { s.(threads := s.threads[t := th]) }

  /** Taking a thread out of its place, and putting it into another. */
  function DropHead(s: State, b: Bid): State
    requires b < |s.blockers| && s.blockers[b] != []
  {
    s.(blockers := s.blockers[b := s.blockers[b][1..]])
  }

  function DropReady(s: State, c: nat, p: nat): State
    requires c < |s.cpus| && ContextOk(s.cpus[c]) && p < LEVELS && s.cpus[c].queues[p] != []
  {
    SetCpu(s, c, Dequeue(s.cpus[c], p))
  }

  function DropRun(s: State, c: nat): State
    requires c < |s.cpus|
  {
    SetCpu(s, c, s.cpus[c].(run := None))
  }

  function DropGrave(s: State, c: nat): State
    requires c < |s.cpus| && s.cpus[c].graveyard != []
  {
    SetCpu(s, c, s.cpus[c].(graveyard := s.cpus[c].graveyard[1..]))
  }

  function PutReady(s: State, c: nat, t: Tid): State
    requires Shape(s) && c < |s.cpus| && t in s.threads
  {
    SetCpu(s, c, Enqueue(s.cpus[c], s.threads[t].priority, t))
  }

  function PutRun(s: State, c: nat, t: Tid): State
    requires c < |s.cpus|
  {
    SetCpu(s, c, s.cpus[c].(run := Some(t)))
  }

  function PutGrave(s: State, c: nat, t: Tid): State
    requires c < |s.cpus|
  {
    SetCpu(s, c, s.cpus[c].(graveyard := s.cpus[c].graveyard + [t]))
  }

  function PutBlocked(s: State, b: Bid, t: Tid): State
    requires b < |s.blockers| && t in s.threads && forall u :: u in s.blockers[b] ==> u in s.threads
  {
    s.(blockers := s.blockers[b := Insert(s.blockers[b], s.threads, t)])
  }

  /** sched_push: t becomes ready on the first of the least loaded CPUs. */
  function Push(s: State, t: Tid): State
    requires Shape(s) && t in s.threads
  {
    PutReady(s, LeastLoaded(s.cpus), t)
  }

  /** One turn of sched_unblock: the head of the list is woken. */
  function WakeHead(s: State, b: Bid): State
    requires Shape(s) && b < |s.blockers| && s.blockers[b] != [] && s.blockers[b][0] in s.threads
  {
    var t := s.blockers[b][0];
    Push(SetThread(DropHead(s, b), t, s.threads[t].(deadline := 0, result := Norm, blocker := None)), t)
  }

  /** The head of list b waited past its deadline. */
  predicate Overdue(s: State, b: Bid, now: nat) {
    b < |s.blockers| && s.blockers[b] != []
    && s.blockers[b][0] in s.threads && s.threads[s.blockers[b][0]].deadline < now
  }

  /** One turn of sched_update_blockers: the head of the list is woken if it is overdue. */
  function TimeoutHead(s: State, b: Bid, now: nat): State
    requires Shape(s)
  {
    if !Overdue(s, b, now) then s
    else
      var t := s.blockers[b][0];
      Push(SetThread(DropHead(s, b), t, s.threads[t].(result := Timeout, blocker := None)), t)
  }

  /** thread_free: the thread goes, and with its last thread the process. */
  function FreeThread(s: State, t: Tid): State {
    if t !in s.threads then s
    else
      var p := s.threads[t].process;
      s.(threads := s.threads - {t},
         refs := if p in s.refs && s.refs[p] > 1 then s.refs[p := s.refs[p] - 1] else s.refs - {p})
  }

  // ---------- Where threads are ----------

  /** How often t is in a queue or list. */
  function Occurs(q: seq<Tid>, t: Tid): nat { multiset(q)[t] }

  /** How many places of a CPU hold t: run slot, queues, graveyard. */
  function PlacesIn(x: Context, t: Tid): nat
    requires ContextOk(x)
  {
    (if x.run == Some(t) then 1 else 0)
    + Occurs(x.queues[0], t) + Occurs(x.queues[1], t) + Occurs(x.queues[2], t) + Occurs(x.graveyard, t)
  }

  function PlacesOnCpus(cpus: seq<Context>, t: Tid): nat
    requires forall c :: 0 <= c < |cpus| ==> ContextOk(cpus[c])
  {
    if cpus == [] then 0 else PlacesIn(cpus[0], t) + PlacesOnCpus(cpus[1..], t)
  }

  function PlacesOnLists(lists: seq<seq<Tid>>, t: Tid): nat {
    if lists == [] then 0 else Occurs(lists[0], t) + PlacesOnLists(lists[1..], t)
  }

  /** How many places in the whole machine hold t. */
  function PlacesOf(s: State, t: Tid): nat
    requires CpusOk(s.cpus)
  {
    PlacesOnCpus(s.cpus, t) + PlacesOnLists(s.blockers, t)
  }

  lemma {:induction false} SetCpuPlaces(cpus: seq<Context>, c: nat, x: Context, t: Tid)
    requires (forall d :: 0 <= d < |cpus| ==> ContextOk(cpus[d])) && c < |cpus| && ContextOk(x)
    ensures PlacesOnCpus(cpus[c := x], t) == PlacesOnCpus(cpus, t) - PlacesIn(cpus[c], t) + PlacesIn(x, t)
    ensures PlacesOnCpus(cpus, t) >= PlacesIn(cpus[c], t)
    decreases |cpus|
  {
    hide PlacesIn;
    var cpus' := cpus[c := x];
    if c == 0 {
      assert cpus'[1..] == cpus[1..];
    } else {
      assert cpus'[1..] == cpus[1..][c - 1 := x];
      SetCpuPlaces(cpus[1..], c - 1, x, t);
    }
  }

  lemma {:induction false} SetListPlaces(lists: seq<seq<Tid>>, b: nat, list: seq<Tid>, t: Tid)
    requires b < |lists|
    ensures PlacesOnLists(lists[b := list], t) == PlacesOnLists(lists, t) - Occurs(lists[b], t) + Occurs(list, t)
    ensures PlacesOnLists(lists, t) >= Occurs(lists[b], t)
    decreases |lists|
  {
    hide Occurs;
    var lists' := lists[b := list];
    if b == 0 {
      assert lists'[1..] == lists[1..];
    } else {
      assert lists'[1..] == lists[1..][b - 1 := list];
      SetListPlaces(lists[1..], b - 1, list, t);
    }
  }

  function One(t: Tid, u: Tid): nat { if t == u then 1 else 0 }

  lemma EnqueuePlaces(x: Context, p: nat, t: Tid, u: Tid)
    requires ContextOk(x) && p < LEVELS
    ensures PlacesIn(Enqueue(x, p, t), u) == PlacesIn(x, u) + One(t, u)
  {
    assert Occurs(x.queues[p] + [t], u) == Occurs(x.queues[p], u) + One(t, u);
  }

  lemma DequeuePlaces(x: Context, p: nat, u: Tid)
    requires ContextOk(x) && p < LEVELS && x.queues[p] != []
    ensures PlacesIn(Dequeue(x, p), u) + One(x.queues[p][0], u) == PlacesIn(x, u)
  {
    HeadOccurs(x.queues[p], u);
  }

  lemma HeadOccurs(q: seq<Tid>, u: Tid)
    requires q != []
    ensures Occurs(q, u) == One(q[0], u) + Occurs(q[1..], u)
  {
    assert q == [q[0]] + q[1..];
  }

  lemma InsertOccurs(list: seq<Tid>, i: nat, t: Tid, u: Tid)
    requires i <= |list|
    ensures Occurs(list[..i] + [t] + list[i..], u) == Occurs(list, u) + One(t, u)
  {
    assert list == list[..i] + list[i..];
  }

  // ---------- The invariant ----------

  /** Whether u is the thread taken out of its place in the middle of a step. */
  function Out(out: Option<Tid>, u: Tid): nat { if out == Some(u) then 1 else 0 }

  /** Every live thread is in exactly one place, apart from the one taken out; no other thread is anywhere. */
  ghost predicate EachOnce(s: State, out: Option<Tid>)
    requires CpusOk(s.cpus)
  {
    forall u :: PlacesOf(s, u) + Out(out, u) == if u in s.threads then 1 else 0
  }

  /** Ready threads wait in the queue of their priority and are blocked nowhere. */
  predicate QueueOk(threads: map<Tid, Thread>, x: Context)
    requires ContextOk(x)
  {
    forall p, t :: 0 <= p < LEVELS && t in x.queues[p] ==>
      t in threads && threads[t].priority == p && threads[t].blocker == None
  }

  predicate QueuesOk(threads: map<Tid, Thread>, cpus: seq<Context>)
    requires CpusOk(cpus)
  {
    forall c :: 0 <= c < |cpus| ==> QueueOk(threads, cpus[c])
  }

  /** The threads in a list are blocked on it, and stand in the order of their deadlines. */
  predicate ListOk(threads: map<Tid, Thread>, b: Bid, list: seq<Tid>) {
    && (forall t :: t in list ==> t in threads && threads[t].blocker == Some(b))
    && (forall i, j :: 0 <= i < j < |list| ==> threads[list[i]].deadline <= threads[list[j]].deadline)
  }

  predicate ListsOk(threads: map<Tid, Thread>, lists: seq<seq<Tid>>) {
    && (forall b :: 0 <= b < |lists| ==> ListOk(threads, b, lists[b]))
    && (forall t :: t in threads && threads[t].blocker.Some? ==> threads[t].blocker.value < |lists|)
  }

  function ThreadsOf(threads: map<Tid, Thread>, p: Pid): set<Tid> { set t | t in threads && threads[t].process == p }

  /** Reference counts: a process is there while it has threads, and counts them. */
  ghost predicate RefsOk(threads: map<Tid, Thread>, refs: map<Pid, nat>) {
    && (forall t :: t in threads ==> threads[t].process in refs)
    && (forall p :: p in refs ==> refs[p] == |ThreadsOf(threads, p)| > 0)
  }

  ghost predicate InvOut(s: State, out: Option<Tid>) {
    Shape(s) && EachOnce(s, out) && QueuesOk(s.threads, s.cpus)
    && ListsOk(s.threads, s.blockers) && RefsOk(s.threads, s.refs)
  }

  ghost predicate Inv(s: State) { InvOut(s, None) }

  /** Changing one CPU so that threads move only between it and the thread taken out. */
  lemma CpuStep(s: State, out: Option<Tid>, c: nat, x: Context, out': Option<Tid>)
    requires InvOut(s, out) && c < |s.cpus| && ContextOk(x) && QueueOk(s.threads, x)
    requires forall u :: PlacesIn(x, u) + Out(out', u) == PlacesIn(s.cpus[c], u) + Out(out, u)
    ensures InvOut(SetCpu(s, c, x), out')
  {
    hide PlacesIn, RefsOk;
    var s' := SetCpu(s, c, x);
    forall u ensures PlacesOf(s', u) + Out(out', u) == if u in s'.threads then 1 else 0 {
      SetCpuPlaces(s.cpus, c, x, u);
    }
  }

  /** Changing one list so that threads move only between it and the thread taken out. */
  lemma ListStep(s: State, out: Option<Tid>, b: Bid, list: seq<Tid>, out': Option<Tid>)
    requires InvOut(s, out) && b < |s.blockers| && ListOk(s.threads, b, list)
    requires forall u :: Occurs(list, u) + Out(out', u) == Occurs(s.blockers[b], u) + Out(out, u)
    ensures InvOut(s.(blockers := s.blockers[b := list]), out')
  {
    hide Occurs, RefsOk;
    var s' := s.(blockers := s.blockers[b := list]);
    forall u ensures PlacesOf(s', u) + Out(out', u) == if u in s'.threads then 1 else 0 {
      SetListPlaces(s.blockers, b, list, u);
    }
  }

  lemma {:induction false} OnCpu(cpus: seq<Context>, c: nat, t: Tid)
    requires (forall d :: 0 <= d < |cpus| ==> ContextOk(cpus[d])) && c < |cpus|
    ensures PlacesOnCpus(cpus, t) >= PlacesIn(cpus[c], t)
    decreases |cpus|
  {
    if c > 0 { OnCpu(cpus[1..], c - 1, t); }
  }

  lemma {:induction false} OnList(lists: seq<seq<Tid>>, b: nat, t: Tid)
    requires b < |lists|
    ensures PlacesOnLists(lists, t) >= Occurs(lists[b], t)
    decreases |lists|
  {
    if b > 0 { OnList(lists[1..], b - 1, t); }
  }

  /** A thread taken out is in no queue and no list. */
  lemma OutIsNowhere(s: State, t: Tid)
    requires InvOut(s, Some(t))
    ensures t in s.threads
    ensures forall c, p :: 0 <= c < |s.cpus| && 0 <= p < LEVELS ==> t !in s.cpus[c].queues[p]
    ensures forall b :: 0 <= b < |s.blockers| ==> t !in s.blockers[b]
  {
    assert PlacesOf(s, t) + Out(Some(t), t) == if t in s.threads then 1 else 0;
    hide EachOnce, QueuesOk, ListsOk, RefsOk;
    forall c, p | 0 <= c < |s.cpus| && 0 <= p < LEVELS ensures t !in s.cpus[c].queues[p] {
      OnCpu(s.cpus, c, t);
      assert Occurs(s.cpus[c].queues[p], t) == 0;
    }
    forall b | 0 <= b < |s.blockers| ensures t !in s.blockers[b] {
      OnList(s.blockers, b, t);
      assert Occurs(s.blockers[b], t) == 0;
    }
  }

  /** The fields of a thread taken out may change, except its process and priority. */
  lemma SetOut(s: State, t: Tid, th: Thread)
    requires InvOut(s, Some(t)) && t in s.threads && th.process == s.threads[t].process
    requires th.priority == s.threads[t].priority
    requires th.blocker.Some? ==> th.blocker.value < |s.blockers|
    ensures InvOut(SetThread(s, t, th), Some(t))
  {
    hide EachOnce, QueuesOk, ListsOk, RefsOk;
    OutIsNowhere(s, t);
    OnceAfterSet(s, Some(t), t, th);
    QueuesAfterSet(s.threads, s.cpus, t, th);
    ListsAfterSet(s.threads, s.blockers, t, th);
    RefsAfterSet(s.threads, s.refs, t, th);
  }

  lemma OnceAfterSet(s: State, out: Option<Tid>, t: Tid, th: Thread)
    requires CpusOk(s.cpus) && EachOnce(s, out) && t in s.threads
    ensures EachOnce(SetThread(s, t, th), out)
  {
    forall u ensures PlacesOf(SetThread(s, t, th), u) + Out(out, u) == if u in s.threads then 1 else 0 {
      assert PlacesOf(s, u) + Out(out, u) == if u in s.threads then 1 else 0;
      hide PlacesOnCpus, PlacesOnLists;
    }
  }

  lemma QueuesAfterSet(threads: map<Tid, Thread>, cpus: seq<Context>, t: Tid, th: Thread)
    requires CpusOk(cpus) && QueuesOk(threads, cpus)
    requires forall c, p :: 0 <= c < |cpus| && 0 <= p < LEVELS ==> t !in cpus[c].queues[p]
    ensures QueuesOk(threads[t := th], cpus)
  {
    forall c | 0 <= c < |cpus| ensures QueueOk(threads[t := th], cpus[c]) {
      assert QueueOk(threads, cpus[c]);
    }
  }

  lemma ListsAfterSet(threads: map<Tid, Thread>, lists: seq<seq<Tid>>, t: Tid, th: Thread)
    requires ListsOk(threads, lists) && (forall b :: 0 <= b < |lists| ==> t !in lists[b])
    requires th.blocker.Some? ==> th.blocker.value < |lists|
    ensures ListsOk(threads[t := th], lists)
  {
    forall b | 0 <= b < |lists| ensures ListOk(threads[t := th], b, lists[b]) {
      assert ListOk(threads, b, lists[b]);
    }
  }

  lemma RefsAfterSet(threads: map<Tid, Thread>, refs: map<Pid, nat>, t: Tid, th: Thread)
    requires RefsOk(threads, refs) && t in threads && th.process == threads[t].process
    ensures RefsOk(threads[t := th], refs)
  {
    forall p ensures ThreadsOf(threads[t := th], p) == ThreadsOf(threads, p) {
    }
  }

  // ---------- What taking out and putting in keeps ----------

  lemma DequeueOk(threads: map<Tid, Thread>, x: Context, p: nat)
    requires ContextOk(x) && QueueOk(threads, x) && p < LEVELS && x.queues[p] != []
    ensures ContextOk(Dequeue(x, p)) && QueueOk(threads, Dequeue(x, p))
    ensures var t := x.queues[p][0]; t in threads && threads[t].priority == p && threads[t].blocker == None
  {
    assert x.queues[p][0] in x.queues[p];
  }

  lemma TailOk(threads: map<Tid, Thread>, b: Bid, list: seq<Tid>)
    requires ListOk(threads, b, list) && list != []
    ensures ListOk(threads, b, list[1..]) && list[0] in threads
  {
  }

  lemma DropHeadKeeps(s: State, b: Bid)
    requires Inv(s) && b < |s.blockers| && s.blockers[b] != []
    ensures InvOut(DropHead(s, b), Some(s.blockers[b][0])) && s.blockers[b][0] in s.threads
  {
    var list := s.blockers[b];
    TailOk(s.threads, b, list);
    hide EachOnce, QueuesOk, ListsOk, RefsOk;
    hide ListOk;
    forall u
      ensures Occurs(list[1..], u) + Out(Some(list[0]), u) == Occurs(list, u) + Out(None, u)
    {
      HeadOccurs(list, u);
    }
    ListStep(s, None, b, list[1..], Some(list[0]));
  }

  lemma DropReadyKeeps(s: State, c: nat, p: nat)
    requires Inv(s) && c < |s.cpus| && p < LEVELS && s.cpus[c].queues[p] != []
    ensures InvOut(DropReady(s, c, p), Some(s.cpus[c].queues[p][0]))
    ensures s.cpus[c].queues[p][0] in s.threads && s.threads[s.cpus[c].queues[p][0]].blocker == None
    ensures s.threads[s.cpus[c].queues[p][0]].priority == p
  {
    var x, t := s.cpus[c], s.cpus[c].queues[p][0];
    DequeueOk(s.threads, x, p);
    hide EachOnce, QueuesOk, ListsOk, RefsOk;
    hide QueueOk;
    forall u
      ensures PlacesIn(Dequeue(x, p), u) + Out(Some(t), u) == PlacesIn(x, u) + Out(None, u)
    {
      DequeuePlaces(x, p, u);
    }
    CpuStep(s, None, c, Dequeue(x, p), Some(t));
  }

  lemma DropRunKeeps(s: State, c: nat)
    requires Inv(s) && c < |s.cpus| && s.cpus[c].run.Some?
    ensures InvOut(DropRun(s, c), s.cpus[c].run) && s.cpus[c].run.value in s.threads
  {
    assert QueueOk(s.threads, s.cpus[c]);
    CpuStep(s, None, c, s.cpus[c].(run := None), s.cpus[c].run);
    OutIsNowhere(DropRun(s, c), s.cpus[c].run.value);
  }

  lemma DropGraveKeeps(s: State, c: nat)
    requires Inv(s) && c < |s.cpus| && s.cpus[c].graveyard != []
    ensures InvOut(DropGrave(s, c), Some(s.cpus[c].graveyard[0])) && s.cpus[c].graveyard[0] in s.threads
  {
    var g := s.cpus[c].graveyard;
    assert QueueOk(s.threads, s.cpus[c]);
    forall u ensures Occurs(g, u) == One(g[0], u) + Occurs(g[1..], u) { HeadOccurs(g, u); }
    CpuStep(s, None, c, s.cpus[c].(graveyard := g[1..]), Some(g[0]));
    OutIsNowhere(DropGrave(s, c), g[0]);
  }

  lemma EnqueueOk(threads: map<Tid, Thread>, x: Context, t: Tid)
    requires ContextOk(x) && QueueOk(threads, x) && t in threads && threads[t].priority < LEVELS
    requires threads[t].blocker == None
    ensures QueueOk(threads, Enqueue(x, threads[t].priority, t))
  {
  }

  lemma PutReadyKeeps(s: State, c: nat, t: Tid)
    requires InvOut(s, Some(t)) && c < |s.cpus| && t in s.threads && s.threads[t].blocker == None
    ensures Inv(PutReady(s, c, t))
  {
    var x, p := s.cpus[c], s.threads[t].priority;
    assert QueueOk(s.threads, x);
    EnqueueOk(s.threads, x, t);
    hide PlacesIn, EachOnce, QueuesOk, ListsOk, RefsOk, QueueOk, Enqueue;
    forall u
      ensures PlacesIn(Enqueue(x, p, t), u) + Out(None, u) == PlacesIn(x, u) + Out(Some(t), u)
    {
      EnqueuePlaces(x, p, t, u);
    }
    CpuStep(s, Some(t), c, Enqueue(x, p, t), None);
  }

  lemma PutRunKeeps(s: State, c: nat, t: Tid)
    requires InvOut(s, Some(t)) && c < |s.cpus| && s.cpus[c].run == None
    ensures Inv(PutRun(s, c, t))
  {
    assert QueueOk(s.threads, s.cpus[c]);
    CpuStep(s, Some(t), c, s.cpus[c].(run := Some(t)), None);
  }

  lemma PutGraveKeeps(s: State, c: nat, t: Tid)
    requires InvOut(s, Some(t)) && c < |s.cpus|
    ensures Inv(PutGrave(s, c, t))
  {
    assert QueueOk(s.threads, s.cpus[c]);
    hide EachOnce, QueuesOk, ListsOk, RefsOk;
    var g := s.cpus[c].graveyard;
    forall u ensures Occurs(g + [t], u) == Occurs(g, u) + One(t, u) { }
    CpuStep(s, Some(t), c, s.cpus[c].(graveyard := g + [t]), None);
  }

  lemma InsertSorted(list: seq<Tid>, threads: map<Tid, Thread>, b: Bid, t: Tid)
    requires ListOk(threads, b, list) && t in threads && threads[t].blocker == Some(b)
    ensures ListOk(threads, b, Insert(list, threads, t))
  {
    var i := InsertAt(list, threads, threads[t].deadline);
    hide InsertAt;
    var longer := list[..i] + [t] + list[i..];
    forall u | u in longer ensures u == t || u in list {
    }
    forall p, q | 0 <= p < q < |longer| ensures threads[longer[p]].deadline <= threads[longer[q]].deadline {
      InsertPair(list, threads, b, t, i, p, q);
    }
  }

  lemma InsertPair(list: seq<Tid>, threads: map<Tid, Thread>, b: Bid, t: Tid, i: nat, p: nat, q: nat)
    requires ListOk(threads, b, list) && t in threads && p < q <= |list| && i <= |list|
    requires forall k :: 0 <= k < i ==> threads[list[k]].deadline <= threads[t].deadline
    requires i < |list| ==> threads[list[i]].deadline > threads[t].deadline
    ensures var longer := list[..i] + [t] + list[i..];
            longer[p] in threads && longer[q] in threads && threads[longer[p]].deadline <= threads[longer[q]].deadline
  {
    InsertedAt(list, i, t, p);
    InsertedAt(list, i, t, q);
    if p == i && q > i + 1 { assert threads[list[i]].deadline <= threads[list[q - 1]].deadline; }
  }

  lemma InsertedAt(list: seq<Tid>, i: nat, t: Tid, k: nat)
    requires i <= |list| && k <= |list|
    ensures (list[..i] + [t] + list[i..])[k] == if k < i then list[k] else if k == i then t else list[k - 1]
  {
  }

  lemma PutBlockedKeeps(s: State, b: Bid, t: Tid)
    requires InvOut(s, Some(t)) && b < |s.blockers| && t in s.threads && s.threads[t].blocker == Some(b)
    ensures (forall u :: u in s.blockers[b] ==> u in s.threads) && Inv(PutBlocked(s, b, t))
  {
    var list := s.blockers[b];
    assert ListOk(s.threads, b, list);
    InsertSorted(list, s.threads, b, t);
    var i := InsertAt(list, s.threads, s.threads[t].deadline);
    forall u
      ensures Occurs(Insert(list, s.threads, t), u) + Out(None, u) == Occurs(list, u) + Out(Some(t), u)
    {
      InsertOccurs(list, i, t, u);
    }
    ListStep(s, Some(t), b, Insert(list, s.threads, t), None);
  }

  /** A thread taken out may be freed: its process goes exactly with its last thread. */
  lemma FreeOutKeeps(s: State, t: Tid)
    requires InvOut(s, Some(t))
    ensures Inv(FreeThread(s, t)) && t in s.threads
    ensures s.threads[t].process !in FreeThread(s, t).refs <==> ThreadsOf(s.threads, s.threads[t].process) == {t}
  {
    OutIsNowhere(s, t);
    OnceAfterFree(s, t);
    RefsAfterFree(s.threads, s.refs, t);
    hide EachOnce, QueuesOk, ListsOk, RefsOk;
    OthersAfterFree(s.threads, s.cpus, s.blockers, t);
  }

  lemma OthersAfterFree(threads: map<Tid, Thread>, cpus: seq<Context>, lists: seq<seq<Tid>>, t: Tid)
    requires CpusOk(cpus) && QueuesOk(threads, cpus) && ListsOk(threads, lists)
    requires forall c, p :: 0 <= c < |cpus| && 0 <= p < LEVELS ==> t !in cpus[c].queues[p]
    requires forall b :: 0 <= b < |lists| ==> t !in lists[b]
    ensures QueuesOk(threads - {t}, cpus) && ListsOk(threads - {t}, lists)
  {
    forall c | 0 <= c < |cpus| ensures QueueOk(threads - {t}, cpus[c]) { assert QueueOk(threads, cpus[c]); }
    forall b | 0 <= b < |lists| ensures ListOk(threads - {t}, b, lists[b]) { assert ListOk(threads, b, lists[b]); }
  }

  lemma OnceAfterFree(s: State, t: Tid)
    requires CpusOk(s.cpus) && EachOnce(s, Some(t)) && t in s.threads
    ensures EachOnce(FreeThread(s, t), None)
  {
    forall u ensures PlacesOf(FreeThread(s, t), u) + Out(None, u) == if u in s.threads - {t} then 1 else 0 {
      assert PlacesOf(s, u) + Out(Some(t), u) == if u in s.threads then 1 else 0;
      hide PlacesOnCpus, PlacesOnLists;
    }
  }

  lemma RefsAfterFree(threads: map<Tid, Thread>, refs: map<Pid, nat>, t: Tid)
    requires RefsOk(threads, refs) && t in threads
    ensures var p := threads[t].process;
            var refs' := if p in refs && refs[p] > 1 then refs[p := refs[p] - 1] else refs - {p};
            RefsOk(threads - {t}, refs') && (p !in refs' <==> ThreadsOf(threads, p) == {t})
  {
    var p := threads[t].process;
    var mine := ThreadsOf(threads, p);
    assert t in mine;
    assert ThreadsOf(threads - {t}, p) == mine - {t};
    forall q | q != p ensures ThreadsOf(threads - {t}, q) == ThreadsOf(threads, q) {
    }
    assert |mine - {t}| == |mine| - 1;
    if |mine| == 1 { assert mine - {t} == {}; }
    forall u | u in threads && u != t && threads[u].process == p ensures |mine| > 1 {
      assert {t, u} <= mine;
      SubsetCard({t, u}, mine);
    }
  }

  lemma SubsetCard(a: set<Tid>, b: set<Tid>)
    requires a <= b
    ensures |a| <= |b|
  {
    assert b == a + (b - a);
  }
}
