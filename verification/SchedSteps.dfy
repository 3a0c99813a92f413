/**
 Every step of the scheduler keeps the invariant: each live thread is in exactly one place.
 The steps are ghost functions on states; the scheduler's methods are proved to compute them.
 */
module SchedSteps {
  import opened Options
  import opened Sched

  // ---------- Threads in a run slot ----------

  lemma {:induction false} OnTwoCpus(cpus: seq<Context>, c: nat, d: nat, t: Tid)
    requires (forall e :: 0 <= e < |cpus| ==> ContextOk(cpus[e])) && c < d < |cpus|
    ensures PlacesOnCpus(cpus, t) >= PlacesIn(cpus[c], t) + PlacesIn(cpus[d], t)
    decreases |cpus|
  {
    hide PlacesIn;
    if c > 0 { OnTwoCpus(cpus[1..], c - 1, d - 1, t); } else { OnCpu(cpus[1..], d - 1, t); }
  }

  /** A running thread is in no queue, no list, no graveyard, and on no other CPU. */
  lemma RunningIsNowhereElse(s: State, out: Option<Tid>, c: nat, t: Tid)
    requires InvOut(s, out) && c < |s.cpus| && s.cpus[c].run == Some(t)
    ensures t in s.threads && out != Some(t)
    ensures forall d, p :: 0 <= d < |s.cpus| && 0 <= p < LEVELS ==> t !in s.cpus[d].queues[p]
    ensures forall d :: 0 <= d < |s.cpus| ==> t !in s.cpus[d].graveyard && (d != c ==> s.cpus[d].run != Some(t))
    ensures forall b :: 0 <= b < |s.blockers| ==> t !in s.blockers[b]
  {
    assert PlacesOf(s, t) + Out(out, t) == if t in s.threads then 1 else 0;
    hide EachOnce, QueuesOk, ListsOk, RefsOk;
    OnCpu(s.cpus, c, t);
    assert PlacesOnCpus(s.cpus, t) == 1 && PlacesOnLists(s.blockers, t) == 0;
    OnlyThere(s.cpus, c, t);
    OnNoList(s.blockers, t);
  }

  lemma OnlyThere(cpus: seq<Context>, c: nat, t: Tid)
    requires (forall d :: 0 <= d < |cpus| ==> ContextOk(cpus[d])) && c < |cpus| && cpus[c].run == Some(t)
    requires PlacesOnCpus(cpus, t) <= 1
    ensures forall d, p :: 0 <= d < |cpus| && 0 <= p < LEVELS ==> t !in cpus[d].queues[p]
    ensures forall d :: 0 <= d < |cpus| ==> t !in cpus[d].graveyard && (d != c ==> cpus[d].run != Some(t))
  {
    OnCpu(cpus, c, t);
    forall d | 0 <= d < |cpus|
      ensures t !in cpus[d].graveyard && (d != c ==> cpus[d].run != Some(t))
      ensures forall p :: 0 <= p < LEVELS ==> t !in cpus[d].queues[p]
    {
      if c < d { OnTwoCpus(cpus, c, d, t); } else if d < c { OnTwoCpus(cpus, d, c, t); }
      ContextCounts(cpus[d], t);
    }
  }

  lemma OnNoList(lists: seq<seq<Tid>>, t: Tid)
    requires PlacesOnLists(lists, t) == 0
    ensures forall b :: 0 <= b < |lists| ==> t !in lists[b]
  {
    forall b | 0 <= b < |lists| ensures t !in lists[b] {
      OnList(lists, b, t);
      assert Occurs(lists[b], t) == 0;
    }
  }

  lemma ContextCounts(x: Context, t: Tid)
    requires ContextOk(x)
    ensures (x.run == Some(t) && PlacesIn(x, t) <= 1) || PlacesIn(x, t) == 0 ==>
      t !in x.graveyard && forall p :: 0 <= p < LEVELS ==> t !in x.queues[p]
    ensures PlacesIn(x, t) == 0 ==> x.run != Some(t)
  {
    assert forall p :: 0 <= p < LEVELS && t in x.queues[p] ==> Occurs(x.queues[p], t) > 0;
    assert t in x.graveyard ==> Occurs(x.graveyard, t) > 0;
  }

  /** The fields of a running thread may change, except its process and priority. */
  lemma SetRunning(s: State, out: Option<Tid>, c: nat, t: Tid, th: Thread)
    requires InvOut(s, out) && c < |s.cpus| && s.cpus[c].run == Some(t) && t in s.threads
    requires th.process == s.threads[t].process && th.priority == s.threads[t].priority
    requires th.blocker.Some? ==> th.blocker.value < |s.blockers|
    ensures InvOut(SetThread(s, t, th), out)
  {
    RunningIsNowhereElse(s, out, c, t);
    OnceAfterSet(s, out, t, th);
    hide EachOnce, QueuesOk, ListsOk, RefsOk;
    QueuesAfterSet(s.threads, s.cpus, t, th);
    ListsAfterSet(s.threads, s.blockers, t, th);
    RefsAfterSet(s.threads, s.refs, t, th);
  }

  // ---------- Waking ----------

  lemma WakeKeeps(s: State, b: Bid, th: Thread)
    requires Inv(s) && b < |s.blockers| && s.blockers[b] != [] && s.blockers[b][0] in s.threads
    requires th.process == s.threads[s.blockers[b][0]].process && th.priority == s.threads[s.blockers[b][0]].priority
    requires th.blocker == None
    ensures var t := s.blockers[b][0]; Inv(Push(SetThread(DropHead(s, b), t, th), t))
  {
    hide EachOnce, QueuesOk, ListsOk, RefsOk;
    var t := s.blockers[b][0];
    DropHeadKeeps(s, b);
    SetOut(DropHead(s, b), t, th);
    var s1 := SetThread(DropHead(s, b), t, th);
    PutReadyKeeps(s1, LeastLoaded(s1.cpus), t);
  }

  lemma HeadIsLive(s: State, b: Bid)
    requires Inv(s) && b < |s.blockers| && s.blockers[b] != []
    ensures s.blockers[b][0] in s.threads && s.threads[s.blockers[b][0]].blocker == Some(b)
  {
    assert ListOk(s.threads, b, s.blockers[b]);
    assert s.blockers[b][0] in s.blockers[b];
  }

  lemma WakeHeadKeeps(s: State, b: Bid)
    requires Inv(s) && b < |s.blockers| && s.blockers[b] != [] && s.blockers[b][0] in s.threads
    ensures Inv(WakeHead(s, b)) && WakeHead(s, b).blockers == s.blockers[b := s.blockers[b][1..]]
  {
    hide InvOut;
    WakeKeeps(s, b, s.threads[s.blockers[b][0]].(deadline := 0, result := Norm, blocker := None));
  }

  lemma TimeoutHeadKeeps(s: State, b: Bid, now: nat)
    requires Inv(s) && Shape(s)
    ensures Inv(TimeoutHead(s, b, now)) && |TimeoutHead(s, b, now).blockers| == |s.blockers|
    ensures |TimeoutHead(s, b, now).cpus| == |s.cpus|
    ensures forall d :: 0 <= d < |s.cpus| ==> TimeoutHead(s, b, now).cpus[d].run == s.cpus[d].run
    ensures TimeoutHead(s, b, now).threads.Keys == s.threads.Keys
  {
    hide InvOut;
    if Overdue(s, b, now) {
      var t := s.blockers[b][0];
      var th := s.threads[t].(result := Timeout, blocker := None);
      WakeKeeps(s, b, th);
      PushFrame(SetThread(DropHead(s, b), t, th), t);
    }
  }

  lemma PushFrame(s: State, t: Tid)
    requires Shape(s) && t in s.threads
    ensures var r := Push(s, t); r.threads == s.threads && r.blockers == s.blockers && |r.cpus| == |s.cpus|
    ensures forall d :: 0 <= d < |s.cpus| ==> Push(s, t).cpus[d].run == s.cpus[d].run
  {
  }

  /** sched_unblock: every thread of the list becomes ready. */
  ghost function UnblockAll(s: State, b: Bid): (r: State)
    requires Inv(s) && b < |s.blockers|
    ensures Inv(r) && |r.blockers| == |s.blockers| && r.blockers[b] == []
    decreases |s.blockers[b]|
  {
    if s.blockers[b] == [] then s
    else
      HeadIsLive(s, b);
      WakeHeadKeeps(s, b);
      UnblockAll(WakeHead(s, b), b)
  }

  /** sched_update_blockers, for the lists from b on. */
  ghost function TimeoutsFrom(s: State, b: Bid, now: nat): (r: State)
    requires Inv(s) && b <= |s.blockers|
    ensures Inv(r) && |r.cpus| == |s.cpus| && r.threads.Keys == s.threads.Keys
    ensures forall d :: 0 <= d < |s.cpus| ==> r.cpus[d].run == s.cpus[d].run
    decreases |s.blockers| - b
  {
    if b == |s.blockers| then s
    else
      TimeoutHeadKeeps(s, b, now);
      TimeoutsFrom(TimeoutHead(s, b, now), b + 1, now)
  }

  // ---------- Freeing ----------

  /** A thread that a search of the ready queues frees instead of running: its process was killed and it was in user
      mode. */
  predicate Dead(s: State, t: Tid) {
    t in s.threads && s.threads[t].process in s.killedProcs && s.threads[t].userMode
  }

  /** The first loop of sched_update_graveyard. */
  ghost function EmptyGraveyard(s: State, c: nat): (r: State)
    requires Inv(s) && c < |s.cpus|
    ensures Inv(r) && r.cpus == s.cpus[c := s.cpus[c].(graveyard := [])]
    ensures forall u :: u in s.threads ==> (u in r.threads <==> u !in s.cpus[c].graveyard)
    ensures forall u :: u in r.threads ==> u in s.threads && r.threads[u] == s.threads[u]
    decreases |s.cpus[c].graveyard|
  {
    hide InvOut, FreeGrave;
    if s.cpus[c].graveyard == [] then s
    else
      FreeGraveKeeps(s, c);
      EmptyGraveyard(FreeGrave(s, c), c)
  }

  /** The head of the graveyard is freed. */
  function FreeGrave(s: State, c: nat): State
    requires c < |s.cpus| && s.cpus[c].graveyard != []
  {
    FreeThread(DropGrave(s, c), s.cpus[c].graveyard[0])
  }

  lemma FreeGraveKeeps(s: State, c: nat)
    requires Inv(s) && c < |s.cpus| && s.cpus[c].graveyard != []
    ensures var r := FreeGrave(s, c);
            && Inv(r) && r.cpus == s.cpus[c := s.cpus[c].(graveyard := s.cpus[c].graveyard[1..])]
            && r.cpus[c := r.cpus[c].(graveyard := [])] == s.cpus[c := s.cpus[c].(graveyard := [])]
            && r.threads == s.threads - {s.cpus[c].graveyard[0]}
  {
    hide EachOnce, QueuesOk, ListsOk, RefsOk;
    DropGraveKeeps(s, c);
    FreeOutKeeps(DropGrave(s, c), s.cpus[c].graveyard[0]);
    hide InvOut;
  }

  /** Whether the running thread is to be buried: killed, or of a killed process and trapped from user mode. */
  predicate Doomed(s: State, c: nat, trapUser: bool)
    requires c < |s.cpus|
  {
    s.cpus[c].run.Some? && s.cpus[c].run.value in s.threads &&
    var th := s.threads[s.cpus[c].run.value];
    th.killed || (th.process in s.killedProcs && trapUser)
  }

  /** The second part of sched_update_graveyard. */
  ghost function Bury(s: State, c: nat, trapUser: bool): (r: State)
    requires Inv(s) && c < |s.cpus|
    ensures Inv(r) && |r.cpus| == |s.cpus| && r.threads == s.threads && !Doomed(r, c, trapUser)
    ensures r.cpus[c].queues == s.cpus[c].queues
    ensures if Doomed(s, c, trapUser) then r.cpus[c].run == None && s.cpus[c].run.value in r.cpus[c].graveyard
      else r == s
  {
    if Doomed(s, c, trapUser) then
      var t := s.cpus[c].run.value;
      DropRunKeeps(s, c);
      PutGraveKeeps(DropRun(s, c), c, t);
      PutGrave(DropRun(s, c), c, t)
    else s
  }

  // ---------- Searching the ready queues ----------

  function QueueTotal(x: Context): nat
    requires ContextOk(x)
  {
    |x.queues[0]| + |x.queues[1]| + |x.queues[2]|
  }

  predicate InQueues(x: Context, t: Tid)
    requires ContextOk(x)
  {
    exists p :: 0 <= p < LEVELS && t in x.queues[p]
  }

  /** No thread is ready on x at a level above p. */
  predicate EmptyAbove(x: Context, p: int)
    requires ContextOk(x)
  {
    forall q :: p < q < LEVELS && 0 <= q ==> x.queues[q] == []
  }

  /** From s to r only the ready queues of CPU c got shorter, and of the threads only some ready there were freed. */
  ghost predicate Searched(s: State, c: nat, r: State)
    requires CpusOk(s.cpus) && c < |s.cpus|
  {
    && CpusOk(r.cpus) && |r.cpus| == |s.cpus| && r.blockers == s.blockers && r.killedProcs == s.killedProcs
    && (forall d :: 0 <= d < |s.cpus| && d != c ==> r.cpus[d] == s.cpus[d])
    && r.cpus[c].run == s.cpus[c].run && r.cpus[c].graveyard == s.cpus[c].graveyard
    && (forall u :: u in r.threads ==> u in s.threads && r.threads[u] == s.threads[u])
    && (forall u :: u in s.threads && u !in r.threads ==> InQueues(s.cpus[c], u))
    && (forall u :: InQueues(r.cpus[c], u) ==> InQueues(s.cpus[c], u))
  }

  lemma SearchedTrans(a: State, c: nat, b: State, d: State)
    requires CpusOk(a.cpus) && c < |a.cpus| && Searched(a, c, b) && Searched(b, c, d)
    ensures Searched(a, c, d)
  {
    hide InQueues;
  }

  lemma DropSearched(s: State, c: nat, p: nat)
    requires Inv(s) && c < |s.cpus| && p < LEVELS && s.cpus[c].queues[p] != []
    ensures var t := s.cpus[c].queues[p][0]; var r := DropReady(s, c, p);
            && Searched(s, c, r) && QueueTotal(r.cpus[c]) < QueueTotal(s.cpus[c])
            && Searched(s, c, FreeThread(r, t)) && QueueTotal(FreeThread(r, t).cpus[c]) < QueueTotal(s.cpus[c])
    ensures forall q :: 0 <= q < LEVELS && q != p ==> DropReady(s, c, p).cpus[c].queues[q] == s.cpus[c].queues[q]
  {
    hide EachOnce, QueuesOk, ListsOk, RefsOk;
    assert InQueues(s.cpus[c], s.cpus[c].queues[p][0]);
    forall u, q | 0 <= q < LEVELS && u in DropReady(s, c, p).cpus[c].queues[q] ensures u in s.cpus[c].queues[q] {
    }
  }

  /** sched_context_find_any (lo = 0) and sched_context_find_higher (lo = priority + 1), from level p down:
      the first live thread of the highest level, with the dead ones before it freed. */
  ghost function Find(s: State, c: nat, lo: nat, p: int): (r: (Option<Tid>, State))
    requires Inv(s) && c < |s.cpus| && -1 <= p < LEVELS && EmptyAbove(s.cpus[c], p)
    ensures Searched(s, c, r.1)
    ensures r.0.None? ==> Inv(r.1) && EmptyAbove(r.1.cpus[c], lo - 1)
    ensures r.0.Some? ==> var t := r.0.value;
      && InvOut(r.1, r.0) && t in r.1.threads && r.1.threads[t].blocker == None && !Dead(r.1, t)
      && r.1.threads[t].priority >= lo && EmptyAbove(r.1.cpus[c], r.1.threads[t].priority)
    decreases QueueTotal(s.cpus[c]), p + 1
  {
    hide EachOnce, QueuesOk, ListsOk, RefsOk, InQueues;
    if p < lo then (None, s)
    else if s.cpus[c].queues[p] == [] then Find(s, c, lo, p - 1)
    else
      var t := s.cpus[c].queues[p][0];
      DropSearched(s, c, p);
      DropReadyKeeps(s, c, p);
      if Dead(s, t) then
        FreeOutKeeps(DropReady(s, c, p), t);
        var r := Find(FreeThread(DropReady(s, c, p), t), c, lo, p);
        SearchedTrans(s, c, FreeThread(DropReady(s, c, p), t), r.1);
        r
      else (Some(t), DropReady(s, c, p))
  }

  // ---------- Choosing what runs next ----------

  function Loaded(th: Thread, now: nat): Thread { th.(timeEnd := (now + TIME_SLICE) % TIMES) }

  function Saved(th: Thread, trapUser: bool): Thread { th.(userMode := trapUser) }

  /** thread_load into an empty run slot. */
  ghost function RunNext(s: State, c: nat, next: Option<Tid>, now: nat): (r: State)
    requires InvOut(s, next) && c < |s.cpus| && s.cpus[c].run == None && (next.Some? ==> next.value in s.threads)
    ensures Inv(r) && |r.cpus| == |s.cpus| && r.cpus[c] == s.cpus[c].(run := next) && r.threads.Keys == s.threads.Keys
    ensures forall u :: u in s.threads ==> r.threads[u].priority == s.threads[u].priority
  {
    hide InvOut, LoadInto;
    if next.None? then s
    else
      LoadKeeps(s, c, next.value, now);
      LoadInto(s, c, next.value, now)
  }

  function LoadInto(s: State, c: nat, t: Tid, now: nat): State
    requires c < |s.cpus| && t in s.threads
  {
    PutRun(SetThread(s, t, Loaded(s.threads[t], now)), c, t)
  }

  lemma LoadKeeps(s: State, c: nat, t: Tid, now: nat)
    requires InvOut(s, Some(t)) && c < |s.cpus| && s.cpus[c].run == None && t in s.threads
    ensures var r := LoadInto(s, c, t, now);
            && Inv(r) && |r.cpus| == |s.cpus| && r.cpus[c] == s.cpus[c].(run := Some(t))
            && r.threads.Keys == s.threads.Keys
            && forall u :: u in s.threads ==> r.threads[u].priority == s.threads[u].priority
  {
    hide EachOnce, QueuesOk, RefsOk;
    SetOut(s, t, Loaded(s.threads[t], now));
    PutRunKeeps(SetThread(s, t, Loaded(s.threads[t], now)), c, t);
    hide InvOut;
  }

  /** The running thread t goes to its ready queue and n, taken out before, takes its place. */
  function Switch(s: State, c: nat, t: Tid, n: Tid, trapUser: bool, now: nat): State
    requires Shape(s) && c < |s.cpus| && t in s.threads && n in s.threads && t != n
  {
    var s1 := SetThread(SetThread(s, t, Saved(s.threads[t], trapUser)), n, Loaded(s.threads[n], now));
    SetCpu(s1, c, Enqueue(s.cpus[c], s.threads[t].priority, t).(run := Some(n)))
  }

  lemma SwitchKeeps(s: State, c: nat, t: Tid, n: Tid, trapUser: bool, now: nat)
    requires InvOut(s, Some(n)) && c < |s.cpus| && s.cpus[c].run == Some(t) && t in s.threads && n in s.threads
    requires t != n
    requires s.threads[t].blocker == None && s.threads[n].blocker == None
    ensures Inv(Switch(s, c, t, n, trapUser, now))
  {
    hide EachOnce, QueuesOk, ListsOk, RefsOk;
    var s0 := SetThread(s, t, Saved(s.threads[t], trapUser));
    SetRunning(s, Some(n), c, t, Saved(s.threads[t], trapUser));
    SetOut(s0, n, Loaded(s.threads[n], now));
    var s1 := SetThread(s0, n, Loaded(s.threads[n], now));
    var x, p := s.cpus[c], s.threads[t].priority;
    SwitchQueue(s1, c, t);
    forall u ensures PlacesIn(Enqueue(x, p, t).(run := Some(n)), u) + Out(None, u) == PlacesIn(x, u) + Out(Some(n), u) {
      EnqueuePlaces(x, p, t, u);
    }
    CpuStep(s1, Some(n), c, Enqueue(x, p, t).(run := Some(n)), None);
  }

  lemma SwitchQueue(s: State, c: nat, t: Tid)
    requires Shape(s) && QueuesOk(s.threads, s.cpus) && c < |s.cpus| && t in s.threads && s.threads[t].blocker == None
    ensures QueueOk(s.threads, Enqueue(s.cpus[c], s.threads[t].priority, t))
  {
    assert QueueOk(s.threads, s.cpus[c]);
    EnqueueOk(s.threads, s.cpus[c], t);
  }

  /** The running thread wants to go on and may: it is not blocking and its slice is not over. */
  predicate Steady(s: State, c: nat, now: nat)
    requires c < |s.cpus|
  {
    s.cpus[c].run.Some? && s.cpus[c].run.value in s.threads
    && s.threads[s.cpus[c].run.value].blocker == None && s.threads[s.cpus[c].run.value].timeEnd >= now
  }

  /** Above level p nothing is ready, except possibly t alone. */
  predicate OnlyAbove(x: Context, p: int, t: Option<Tid>)
    requires ContextOk(x)
  {
    forall q :: p < q < LEVELS && 0 <= q ==> x.queues[q] == [] || (t.Some? && x.queues[q] == [t.value])
  }

  /** What runs on CPU c is ranked right: idle only with empty queues, and nothing ready outranks it but possibly t. */
  ghost predicate Ranked(s: State, c: nat, t: Option<Tid>)
    requires Shape(s) && c < |s.cpus|
  {
    match s.cpus[c].run
    case None => EmptyAbove(s.cpus[c], -1)
    case Some(n) => n in s.threads && OnlyAbove(s.cpus[c], s.threads[n].priority, t)
  }

  /** The thread whose slice has just run out, if any. */
  function Expired(s: State, c: nat, now: nat): Option<Tid>
    requires c < |s.cpus|
  {
    if s.cpus[c].run.Some? && s.cpus[c].run.value in s.threads && s.threads[s.cpus[c].run.value].timeEnd < now
    then s.cpus[c].run else None
  }

  /** The first branch of sched_schedule: the CPU is idle. */
  ghost function DispatchIdle(s: State, c: nat, now: nat): (r: State)
    requires Inv(s) && c < |s.cpus| && s.cpus[c].run == None
    ensures Inv(r) && |r.cpus| == |s.cpus| && Ranked(r, c, None)
    ensures forall u :: u in s.threads && u !in r.threads ==> InQueues(s.cpus[c], u)
  {
    hide EachOnce, QueuesOk, ListsOk, RefsOk, InQueues;
    var (n, s1) := Find(s, c, 0, LEVELS - 1);
    RunNext(s1, c, n, now)
  }

  /** A live thread runs on CPU c. */
  predicate Running(s: State, c: nat) { c < |s.cpus| && s.cpus[c].run.Some? && s.cpus[c].run.value in s.threads }

  /** The running thread is saved and goes to the list it asked for. */
  function Park(s: State, c: nat, trapUser: bool): State
    requires Running(s, c) && s.threads[s.cpus[c].run.value].blocker.Some?
    requires var b := s.threads[s.cpus[c].run.value].blocker.value;
             b < |s.blockers| && forall u :: u in s.blockers[b] ==> u in s.threads
  {
    var t := s.cpus[c].run.value;
    PutBlocked(SetThread(DropRun(s, c), t, Saved(s.threads[t], trapUser)), s.threads[t].blocker.value, t)
  }

  lemma ParkKeeps(s: State, c: nat, trapUser: bool)
    requires Inv(s) && Running(s, c) && s.threads[s.cpus[c].run.value].blocker.Some?
    ensures var b := s.threads[s.cpus[c].run.value].blocker.value;
            b < |s.blockers| && forall u :: u in s.blockers[b] ==> u in s.threads
    ensures var r := Park(s, c, trapUser);
            Inv(r) && r.cpus == s.cpus[c := s.cpus[c].(run := None)] && r.threads.Keys == s.threads.Keys
  {
    hide EachOnce, QueuesOk, RefsOk;
    var t := s.cpus[c].run.value;
    DropRunKeeps(s, c);
    SetOut(DropRun(s, c), t, Saved(s.threads[t], trapUser));
    PutBlockedKeeps(SetThread(DropRun(s, c), t, Saved(s.threads[t], trapUser)), s.threads[t].blocker.value, t);
    hide InvOut;
  }

  /** The second branch: the running thread asked to block. */
  ghost function DispatchBlocked(s: State, c: nat, trapUser: bool, now: nat): (r: State)
    requires Inv(s) && Running(s, c) && s.threads[s.cpus[c].run.value].blocker.Some?
    ensures Inv(r) && |r.cpus| == |s.cpus| && Ranked(r, c, None)
    ensures forall u :: u in s.threads && u !in r.threads ==> InQueues(s.cpus[c], u)
  {
    hide InvOut, Park, Ranked, DispatchIdle;
    ParkKeeps(s, c, trapUser);
    DispatchIdle(Park(s, c, trapUser), c, now)
  }

  /** The times that sched_schedule reads: for its pass over the deadlines, to see whether the slice is over, and for
      the slice of the thread it loads. */
  datatype Clock = Clock(pass: nat, check: nat, load: nat)

  /** The third branch: the running thread goes on unless its slice is over or a thread of higher priority is ready. */
  ghost function DispatchRunning(s: State, c: nat, trapUser: bool, clock: Clock): (r: State)
    requires Inv(s) && c < |s.cpus| && s.cpus[c].run.Some? && s.cpus[c].run.value in s.threads
    requires s.threads[s.cpus[c].run.value].blocker == None
    ensures Inv(r) && |r.cpus| == |s.cpus| && Ranked(r, c, Expired(s, c, clock.check))
    ensures Steady(s, c, clock.check) ==>
      r.cpus[c].run == s.cpus[c].run ||
      (r.cpus[c].run.Some? && r.cpus[c].run.value in r.threads &&
       r.threads[r.cpus[c].run.value].priority > s.threads[s.cpus[c].run.value].priority)
    ensures forall u :: u in s.threads && u !in r.threads ==> InQueues(s.cpus[c], u)
  {
    hide EachOnce, QueuesOk, ListsOk, RefsOk, InQueues;
    var t := s.cpus[c].run.value;
    var lo := if s.threads[t].timeEnd < clock.check then 0 else s.threads[t].priority + 1;
    var (n, s1) := Find(s, c, lo, LEVELS - 1);
    hide Switch;
    if n.None? then
      RunningIsNowhereElse(s1, None, c, t);
      s1
    else
      RunningIsNowhereElse(s1, n, c, t);
      SwitchKeeps(s1, c, t, n.value, trapUser, clock.load);
      SwitchRanked(s1, c, t, n.value, trapUser, clock.load, Expired(s, c, clock.check));
      Switch(s1, c, t, n.value, trapUser, clock.load)
  }

  lemma SwitchRanked(s: State, c: nat, t: Tid, n: Tid, trapUser: bool, now: nat, e: Option<Tid>)
    requires Shape(s) && c < |s.cpus| && t in s.threads && n in s.threads && t != n
    requires EmptyAbove(s.cpus[c], s.threads[n].priority)
    requires e == Some(t) || s.threads[t].priority <= s.threads[n].priority
    ensures var r := Switch(s, c, t, n, trapUser, now);
            && Shape(r) && Ranked(r, c, e) && |r.cpus| == |s.cpus| && r.cpus[c].run == Some(n)
            && r.threads.Keys == s.threads.Keys && r.threads[n].priority == s.threads[n].priority
  {
  }

  ghost function Dispatch(s: State, c: nat, trapUser: bool, clock: Clock): (r: State)
    requires Inv(s) && c < |s.cpus| && (s.cpus[c].run.Some? ==> s.cpus[c].run.value in s.threads)
    ensures Inv(r) && |r.cpus| == |s.cpus| && Ranked(r, c, Expired(s, c, clock.check))
    ensures Steady(s, c, clock.check) ==>
      r.cpus[c].run == s.cpus[c].run ||
      (r.cpus[c].run.Some? && r.cpus[c].run.value in r.threads &&
       r.threads[r.cpus[c].run.value].priority > s.threads[s.cpus[c].run.value].priority)
    ensures forall u :: u in s.threads && u !in r.threads ==> InQueues(s.cpus[c], u)
  {
    hide EachOnce, QueuesOk, ListsOk, RefsOk, InQueues, Ranked;
    if s.cpus[c].run.None? then DispatchIdle(s, c, clock.load)
    else if s.threads[s.cpus[c].run.value].blocker.Some? then
      var r := DispatchBlocked(s, c, trapUser, clock.load);
      RankedWeaker(r, c, Expired(s, c, clock.check));
      r
    else DispatchRunning(s, c, trapUser, clock)
  }

  lemma RankedWeaker(s: State, c: nat, t: Option<Tid>)
    requires Shape(s) && c < |s.cpus| && Ranked(s, c, None)
    ensures Ranked(s, c, t)
  {
  }

  /** The state in which sched_schedule chooses: overdue threads woken (by CPU 0), graveyard emptied, killed thread
      buried. */
  ghost function Prepared(s: State, c: nat, trapUser: bool, now: nat): (r: State)
    requires Inv(s) && c < |s.cpus|
    ensures Inv(r) && |r.cpus| == |s.cpus| && !Doomed(r, c, trapUser)
    ensures r.cpus[c].run.Some? ==> r.cpus[c].run.value in r.threads
  {
    hide EachOnce, QueuesOk, ListsOk, RefsOk;
    var s1 := if c == 0 then TimeoutsFrom(s, 0, now) else s;
    var r := Bury(EmptyGraveyard(s1, c), c, trapUser);
    RunningLives(r, c);
    r
  }

  lemma RunningLives(s: State, c: nat)
    requires Inv(s) && c < |s.cpus|
    ensures s.cpus[c].run.Some? ==> s.cpus[c].run.value in s.threads
  {
    if s.cpus[c].run.Some? { RunningIsNowhereElse(s, None, c, s.cpus[c].run.value); }
  }

  /** sched_schedule. */
  ghost function Schedule(s: State, c: nat, trapDepth: nat, trapUser: bool, clock: Clock): (r: State)
    requires Inv(s) && c < |s.cpus|
    ensures Inv(r) && |r.cpus| == |s.cpus|
    ensures trapDepth <= 1 ==> Ranked(r, c, Expired(Prepared(s, c, trapUser, clock.pass), c, clock.check))
  {
    hide EachOnce, QueuesOk, ListsOk, RefsOk;
    if trapDepth > 1 then s else Dispatch(Prepared(s, c, trapUser, clock.pass), c, trapUser, clock)
  }

  // ---------- Freeing is safe ----------

  lemma BuriedIsNotReady(s: State, c: nat, t: Tid)
    requires Inv(s) && c < |s.cpus| && t in s.cpus[c].graveyard
    ensures t in s.threads && !InQueues(s.cpus[c], t)
  {
    assert PlacesOf(s, t) + Out(None, t) == if t in s.threads then 1 else 0;
    hide EachOnce, QueuesOk, ListsOk, RefsOk;
    OnCpu(s.cpus, c, t);
    GraveCounts(s.cpus[c], t);
  }

  lemma GraveCounts(x: Context, t: Tid)
    requires ContextOk(x) && t in x.graveyard
    ensures PlacesIn(x, t) >= 1 && (PlacesIn(x, t) == 1 ==> !InQueues(x, t))
  {
    assert Occurs(x.graveyard, t) > 0;
    assert forall p :: 0 <= p < LEVELS && t in x.queues[p] ==> Occurs(x.queues[p], t) > 0;
  }

  lemma PreparedKeepsRunning(s: State, c: nat, trapUser: bool, now: nat, d: nat, t: Tid)
    requires Inv(s) && c < |s.cpus| && d < |s.cpus| && s.cpus[d].run == Some(t)
    ensures t in Prepared(s, c, trapUser, now).threads && !InQueues(Prepared(s, c, trapUser, now).cpus[c], t)
  {
    hide EachOnce, QueuesOk, ListsOk, RefsOk, InQueues;
    var s1 := if c == 0 then TimeoutsFrom(s, 0, now) else s;
    RunningIsNowhereElse(s1, None, d, t);
    var s2 := EmptyGraveyard(s1, c);
    RunningIsNowhereElse(s2, None, d, t);
    var r := Bury(s2, c, trapUser);
    if d == c && Doomed(s2, c, trapUser) {
      BuriedIsNotReady(r, c, t);
    } else {
      NotQueued(s2, c, t);
      NotQueued(r, c, t);
    }
  }

  lemma NotQueued(s: State, c: nat, t: Tid)
    requires CpusOk(s.cpus) && c < |s.cpus|
    ensures (forall p :: 0 <= p < LEVELS ==> t !in s.cpus[c].queues[p]) <==> !InQueues(s.cpus[c], t)
  {
  }

  /** No step of the scheduler frees a thread that was running, on any CPU, when the step began. */
  lemma RunningSurvives(s: State, c: nat, trapDepth: nat, trapUser: bool, clock: Clock, d: nat, t: Tid)
    requires Inv(s) && c < |s.cpus| && d < |s.cpus| && s.cpus[d].run == Some(t)
    ensures t in Schedule(s, c, trapDepth, trapUser, clock).threads
  {
    PreparedKeepsRunning(s, c, trapUser, clock.pass, d, t);
    RunningIsNowhereElse(s, None, d, t);
    hide InvOut, InQueues;
  }

  // ---------- Who may replace a running thread ----------

  lemma {:induction false} TimeoutsSpareRunning(s: State, b: Bid, now: nat, c: nat, t: Tid)
    requires Inv(s) && b <= |s.blockers| && c < |s.cpus| && s.cpus[c].run == Some(t) && t in s.threads
    ensures var r := TimeoutsFrom(s, b, now);
      t in r.threads && r.threads[t] == s.threads[t] && r.killedProcs == s.killedProcs
    decreases |s.blockers| - b
  {
    hide EachOnce, QueuesOk, ListsOk, RefsOk, TimeoutHead;
    if b < |s.blockers| {
      TimeoutHeadKeeps(s, b, now);
      TimeoutHeadSpares(s, b, now, c, t);
      TimeoutsSpareRunning(TimeoutHead(s, b, now), b + 1, now, c, t);
    }
  }

  lemma TimeoutHeadSpares(s: State, b: Bid, now: nat, c: nat, t: Tid)
    requires Inv(s) && c < |s.cpus| && s.cpus[c].run == Some(t) && t in s.threads
    ensures var r := TimeoutHead(s, b, now);
      t in r.threads && r.threads[t] == s.threads[t] && r.killedProcs == s.killedProcs
  {
    RunningIsNowhereElse(s, None, c, t);
    hide EachOnce, QueuesOk, ListsOk, RefsOk;
    if Overdue(s, b, now) {
      assert s.blockers[b][0] in s.blockers[b];
    }
  }

  lemma {:induction false} GraveyardSparesProcesses(s: State, c: nat)
    requires Inv(s) && c < |s.cpus|
    ensures EmptyGraveyard(s, c).killedProcs == s.killedProcs
    decreases |s.cpus[c].graveyard|
  {
    hide InvOut;
    if s.cpus[c].graveyard != [] {
      FreeGraveKeeps(s, c);
      GraveyardSparesProcesses(FreeGrave(s, c), c);
    }
  }

  /** Not killed, not of a killed process trapped from user mode, not about to block, and within its slice. */
  predicate Undisturbed(s: State, t: Tid, trapUser: bool, now: nat) {
    t in s.threads &&
    var th := s.threads[t];
    !th.killed && !(th.process in s.killedProcs && trapUser) && th.blocker == None && th.timeEnd >= now
  }

  lemma PreparedUndisturbed(s: State, c: nat, trapUser: bool, clock: Clock, t: Tid)
    requires Inv(s) && c < |s.cpus| && s.cpus[c].run == Some(t) && Undisturbed(s, t, trapUser, clock.check)
    ensures var r := Prepared(s, c, trapUser, clock.pass);
      r.cpus[c].run == Some(t) && Steady(r, c, clock.check) && r.threads[t] == s.threads[t]
  {
    if c == 0 { TimeoutsSpareRunning(s, 0, clock.pass, c, t); }
    var s1 := if c == 0 then TimeoutsFrom(s, 0, clock.pass) else s;
    RunningIsNowhereElse(s1, None, c, t);
    GraveyardSparesProcesses(s1, c);
    RunningIsNowhereElse(EmptyGraveyard(s1, c), None, c, t);
    hide InvOut;
  }

  /** A running thread that is undisturbed is replaced, if at all, by one of strictly higher priority. */
  lemma ReplacedOnlyByHigher(s: State, c: nat, trapDepth: nat, trapUser: bool, clock: Clock, t: Tid)
    requires Inv(s) && c < |s.cpus| && s.cpus[c].run == Some(t) && Undisturbed(s, t, trapUser, clock.check)
    ensures var r := Schedule(s, c, trapDepth, trapUser, clock);
            r.cpus[c].run == Some(t) ||
            (r.cpus[c].run.Some? && r.cpus[c].run.value in r.threads &&
             r.threads[r.cpus[c].run.value].priority > s.threads[t].priority)
  {
    PreparedUndisturbed(s, c, trapUser, clock, t);
    hide InvOut;
  }

  // ---------- Deadlines ----------

  /** Testing the head of a list is enough: if it is not overdue, no thread of the list is. */
  lemma HeadTestIsComplete(s: State, b: Bid, now: nat, t: Tid)
    requires Inv(s) && b < |s.blockers| && t in s.blockers[b] && !Overdue(s, b, now)
    ensures t in s.threads && s.threads[t].deadline >= now
  {
    HeadIsLive(s, b);
    var list := s.blockers[b];
    assert ListOk(s.threads, b, list);
    var i :| 0 <= i < |list| && list[i] == t;
  }

  // ---------- Runs ----------

  datatype Event =
    | Tick(c: nat, trapDepth: nat, trapUser: bool, clock: Clock)
    | Unblock(b: Bid)
    | Block(c: nat, b: Bid, timeout: nat, now: nat)
    | Yield(c: nat)
    | ThreadExit(c: nat)
    | ProcessExit(c: nat)
    | Spawn(t: Tid, p: Pid, priority: nat)
    | NewBlocker

  predicate Enabled(s: State, e: Event) {
    match e
    case Tick(c, _, _, _) => c < |s.cpus|
    case Unblock(b) => b < |s.blockers|
    case Block(c, b, _, _) => Running(s, c) && b < |s.blockers|
    case Yield(c) => Running(s, c)
    case ThreadExit(c) => Running(s, c)
    case ProcessExit(c) => Running(s, c)
    case Spawn(t, _, _) => t !in s.threads
    case NewBlocker => true
  }

  function Deadline(timeout: nat, now: nat): nat { if timeout == NEVER then NEVER else (timeout + now) % TIMES }

  function NewThread(p: Pid, priority: nat): Thread {
    Thread(p, if priority < LEVELS - 1 then priority else LEVELS - 1, false, false, 0, 0, Norm, None)
  }

  /** process_thread_new. */
  function AddThread(s: State, t: Tid, th: Thread): State {
    s.(threads := s.threads[t := th],
       refs := s.refs[th.process := if th.process in s.refs then s.refs[th.process] + 1 else 1])
  }

  /** Changing the fields of the thread that runs on c. */
  ghost function ChangeRunning(s: State, c: nat, th: Thread): (r: State)
    requires Inv(s) && Running(s, c) && th.process == s.threads[s.cpus[c].run.value].process
    requires th.priority == s.threads[s.cpus[c].run.value].priority
    requires th.blocker == s.threads[s.cpus[c].run.value].blocker
      || (th.blocker.Some? && th.blocker.value < |s.blockers|)
    ensures Inv(r)
  {
    hide EachOnce, QueuesOk, RefsOk;
    SetRunning(s, None, c, s.cpus[c].run.value, th);
    SetThread(s, s.cpus[c].run.value, th)
  }

  lemma AddThreadKeeps(s: State, t: Tid, th: Thread)
    requires Inv(s) && t !in s.threads && th.priority < LEVELS && th.blocker == None
    ensures InvOut(AddThread(s, t, th), Some(t))
  {
    hide EachOnce, RefsOk, QueuesOk, ListsOk;
    OnceAfterAdd(s, t, th);
    RefsAfterAdd(s.threads, s.refs, t, th);
    UnknownIsNowhere(s.threads, s.cpus, s.blockers, t);
    QueuesAfterSet(s.threads, s.cpus, t, th);
    ListsAfterSet(s.threads, s.blockers, t, th);
  }

  lemma UnknownIsNowhere(threads: map<Tid, Thread>, cpus: seq<Context>, lists: seq<seq<Tid>>, t: Tid)
    requires CpusOk(cpus) && QueuesOk(threads, cpus) && ListsOk(threads, lists) && t !in threads
    ensures forall c, p :: 0 <= c < |cpus| && 0 <= p < LEVELS ==> t !in cpus[c].queues[p]
    ensures forall b :: 0 <= b < |lists| ==> t !in lists[b]
  {
    forall c, p | 0 <= c < |cpus| && 0 <= p < LEVELS
      ensures t !in cpus[c].queues[p]
    {
      assert QueueOk(threads, cpus[c]);
    }
    forall b | 0 <= b < |lists| ensures t !in lists[b] { assert ListOk(threads, b, lists[b]); }
  }

  lemma OnceAfterAdd(s: State, t: Tid, th: Thread)
    requires CpusOk(s.cpus) && EachOnce(s, None) && t !in s.threads
    ensures EachOnce(AddThread(s, t, th), Some(t))
  {
    forall u ensures PlacesOf(AddThread(s, t, th), u) + Out(Some(t), u) == if u in s.threads || u == t then 1 else 0 {
      assert PlacesOf(s, u) + Out(None, u) == if u in s.threads then 1 else 0;
      hide PlacesOnCpus, PlacesOnLists;
    }
  }

  lemma RefsAfterAdd(threads: map<Tid, Thread>, refs: map<Pid, nat>, t: Tid, th: Thread)
    requires RefsOk(threads, refs) && t !in threads
    ensures RefsOk(threads[t := th], refs[th.process := if th.process in refs then refs[th.process] + 1 else 1])
  {
    var p := th.process;
    var threads', refs' := threads[t := th], refs[p := if p in refs then refs[p] + 1 else 1];
    if p !in refs { assert ThreadsOf(threads, p) == {}; }
    hide ThreadsOf;
    forall q | q in refs' ensures refs'[q] == |ThreadsOf(threads', q)| > 0 {
      ThreadsOfAdd(threads, t, th, q);
    }
  }

  lemma ThreadsOfAdd(threads: map<Tid, Thread>, t: Tid, th: Thread, q: Pid)
    requires t !in threads
    ensures |ThreadsOf(threads[t := th], q)| == |ThreadsOf(threads, q)| + if q == th.process then 1 else 0
  {
    if q == th.process {
      assert ThreadsOf(threads[t := th], q) == ThreadsOf(threads, q) + {t};
    } else {
      assert ThreadsOf(threads[t := th], q) == ThreadsOf(threads, q);
    }
  }

  lemma AddBlockerKeeps(s: State)
    requires Inv(s)
    ensures Inv(s.(blockers := s.blockers + [[]]))
  {
    var s' := s.(blockers := s.blockers + [[]]);
    forall u ensures PlacesOf(s', u) + Out(None, u) == if u in s.threads then 1 else 0 {
      AddListPlaces(s.blockers, u);
      assert PlacesOf(s, u) + Out(None, u) == if u in s.threads then 1 else 0;
    }
    hide EachOnce, QueuesOk, RefsOk;
    forall b | 0 <= b < |s'.blockers| ensures ListOk(s.threads, b, s'.blockers[b]) {
      if b < |s.blockers| { assert ListOk(s.threads, b, s.blockers[b]); }
    }
  }

  lemma {:induction false} AddListPlaces(lists: seq<seq<Tid>>, u: Tid)
    ensures PlacesOnLists(lists + [[]], u) == PlacesOnLists(lists, u)
    decreases |lists|
  {
    if lists == [] {
      assert (lists + [[]])[0] == [] && (lists + [[]])[1..] == lists;
    } else {
      assert (lists + [[]])[1..] == lists[1..] + [[]];
      AddListPlaces(lists[1..], u);
    }
  }

  /** One event, from any state that satisfies the invariant to another. */
  ghost function Step(s: State, e: Event): (r: State)
    requires Inv(s) && Enabled(s, e)
    ensures Inv(r)
  {
    hide InvOut;
    match e
    case Tick(c, trapDepth, trapUser, clock) => Schedule(s, c, trapDepth, trapUser, clock)
    case Unblock(b) => UnblockAll(s, b)
    case Block(c, b, timeout, now) =>
      var th := s.threads[s.cpus[c].run.value];
      ChangeRunning(s, c, th.(timeEnd := 0, deadline := Deadline(timeout, now), blocker := Some(b)))
    case Yield(c) => ChangeRunning(s, c, s.threads[s.cpus[c].run.value].(timeEnd := 0))
    case ThreadExit(c) => ChangeRunning(s, c, s.threads[s.cpus[c].run.value].(killed := true))
    case ProcessExit(c) =>
      var th := s.threads[s.cpus[c].run.value];
      var s1 := ChangeRunning(s, c, th.(killed := true));
      KillKeeps(s1, th.process);
      s1.(killedProcs := s1.killedProcs + {th.process})
    case Spawn(t, p, priority) =>
      SpawnKeeps(s, t, NewThread(p, priority));
      Push(AddThread(s, t, NewThread(p, priority)), t)
    case NewBlocker =>
      AddBlockerKeeps(s);
      s.(blockers := s.blockers + [[]])
  }

  lemma KillKeeps(s: State, p: Pid)
    requires Inv(s)
    ensures Inv(s.(killedProcs := s.killedProcs + {p}))
  {
    var s' := s.(killedProcs := s.killedProcs + {p});
    forall u ensures PlacesOf(s', u) + Out(None, u) == if u in s'.threads then 1 else 0 {
      assert PlacesOf(s, u) + Out(None, u) == if u in s.threads then 1 else 0;
    }
    hide PlacesOf;
  }

  lemma SpawnKeeps(s: State, t: Tid, th: Thread)
    requires Inv(s) && t !in s.threads && th.priority < LEVELS && th.blocker == None
    ensures var s1 := AddThread(s, t, th); Shape(s1) && t in s1.threads && Inv(Push(s1, t))
  {
    AddThreadKeeps(s, t, th);
    hide EachOnce, QueuesOk, ListsOk, RefsOk;
    var s1 := AddThread(s, t, th);
    PutReadyKeeps(s1, LeastLoaded(s1.cpus), t);
  }

  const IDLE := Context(None, [[], [], []], [])

  /** After sched_init: the boot thread runs on CPU 0, every other CPU is idle, and one list, for sleepers, is there. */
  predicate Boot(s: State) {
    && |s.cpus| > 0 && s.cpus[0] == IDLE.(run := Some(0)) && (forall c :: 0 < c < |s.cpus| ==> s.cpus[c] == IDLE)
    && s.blockers == [[]] && s.threads == map[0 := NewThread(0, LEVELS - 1).(timeEnd := NEVER)] && s.refs == map[0 := 1]
    && s.killedProcs == {}
  }

  lemma {:induction false} IdlePlaces(cpus: seq<Context>, u: Tid)
    requires forall c :: 0 <= c < |cpus| ==> cpus[c] == IDLE
    ensures PlacesOnCpus(cpus, u) == 0
    decreases |cpus|
  {
    if cpus != [] { IdlePlaces(cpus[1..], u); }
  }

  lemma BootInv(s: State)
    requires Boot(s)
    ensures Inv(s)
  {
    forall u ensures PlacesOf(s, u) + Out(None, u) == if u in s.threads then 1 else 0 {
      IdlePlaces(s.cpus[1..], u);
      assert PlacesIn(s.cpus[0], u) == One(0, u);
      assert PlacesOnLists([[]], u) == 0;
    }
    assert ThreadsOf(s.threads, 0) == {0};
  }

  /** The state after each event of a run. */
  ghost predicate Run(states: seq<State>, es: seq<Event>) {
    && |states| == |es| + 1 && Boot(states[0])
    && forall i :: 0 <= i < |es| ==>
         Enabled(states[i], es[i]) && (Inv(states[i]) ==> states[i + 1] == Step(states[i], es[i]))
  }

  lemma {:induction false} RunKeeps(states: seq<State>, es: seq<Event>, i: nat)
    requires Run(states, es) && i < |states|
    ensures Inv(states[i])
  {
    if i == 0 {
      BootInv(states[0]);
    } else {
      RunKeeps(states, es, i - 1);
      hide InvOut;
      assert Enabled(states[i - 1], es[i - 1]) && states[i] == Step(states[i - 1], es[i - 1]);
    }
  }

  /** In every reachable state every live thread is in exactly one place, and a freed thread is in none. */
  lemma ExactlyOnePlace(states: seq<State>, es: seq<Event>, i: nat, t: Tid)
    requires Run(states, es) && i < |states|
    ensures CpusOk(states[i].cpus) && PlacesOf(states[i], t) == if t in states[i].threads then 1 else 0
  {
    RunKeeps(states, es, i);
    assert PlacesOf(states[i], t) + Out(None, t) == if t in states[i].threads then 1 else 0;
  }

  /** In every run, a thread that runs on some CPU outlives the next event, whatever it is. */
  lemma RunningOutlivesEvent(states: seq<State>, es: seq<Event>, i: nat, d: nat, t: Tid)
    requires Run(states, es) && i < |es| && d < |states[i].cpus| && states[i].cpus[d].run == Some(t)
    ensures t in states[i + 1].threads
  {
    RunKeeps(states, es, i);
    var s, e := states[i], es[i];
    assert Enabled(s, e) && states[i + 1] == Step(s, e);
    RunningIsNowhereElse(s, None, d, t);
    match e
    case Tick(c, trapDepth, trapUser, clock) => RunningSurvives(s, c, trapDepth, trapUser, clock, d, t);
    case Unblock(b) => UnblockKeepsThreads(s, b);
    case _ =>
  }

  lemma {:induction false} UnblockKeepsThreads(s: State, b: Bid)
    requires Inv(s) && b < |s.blockers|
    ensures UnblockAll(s, b).threads.Keys == s.threads.Keys
    decreases |s.blockers[b]|
  {
    hide EachOnce, QueuesOk, ListsOk, RefsOk;
    if s.blockers[b] != [] {
      HeadIsLive(s, b);
      WakeHeadKeeps(s, b);
      UnblockKeepsThreads(WakeHead(s, b), b);
    }
  }
}
