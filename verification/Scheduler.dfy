/**
 The scheduler's code: loops over CPUs, queues and lists that update its tables in place.
 Each method is proved to compute the corresponding step.
 */
module Scheduler {
  import opened Options
  import opened Sched
  import opened SchedSteps

  lemma LeastLoadedUnique(cpus: seq<Context>, c: nat)
    requires CpusOk(cpus) && IsLeastLoaded(cpus, c)
    ensures LeastLoaded(cpus) == c
  {
  }

  /** Levels that are empty change nothing: a search may start over at the top. */
  lemma {:induction false} FindSkipsEmpty(s: State, c: nat, lo: nat, p: int, q: int)
    requires Inv(s) && c < |s.cpus| && -1 <= p <= q < LEVELS && EmptyAbove(s.cpus[c], p)
    ensures Find(s, c, lo, q) == Find(s, c, lo, p)
    decreases q
  {
    hide EachOnce, QueuesOk, ListsOk, RefsOk;
    if p < q { FindSkipsEmpty(s, c, lo, p, q - 1); }
  }

  class Kernel {
    var cpus: seq<Context>
    var blockers: seq<seq<Tid>>
    var threads: map<Tid, Thread>
    var refs: map<Pid, nat>
    var killedProcs: set<Pid>

    function View(): State
      reads this
    {
      State(cpus, blockers, threads, refs, killedProcs)
    }

    /** sched_push. */
    method PushThread(t: Tid)
      requires Shape(View()) && t in threads
      modifies this`cpus
      ensures View() == Push(old(View()), t)
    {
      var best: Option<nat> := None;
      for i := 0 to |cpus|
        invariant cpus == old(cpus)
        invariant i == 0 <==> best.None?
        invariant best.Some? ==>
          best.value < i && forall d :: 0 <= d < i ==> 0 < Load(cpus[best.value]) <= Load(cpus[d])
        invariant best.Some? ==> forall d :: 0 <= d < best.value ==> Load(cpus[best.value]) < Load(cpus[d])
      {
        var length := Load(cpus[i]);
        if length == 0 {
          LeastLoadedUnique(cpus, i);
          cpus := cpus[i := Enqueue(cpus[i], threads[t].priority, t)];
          return;
        }
        if best.None? || length < Load(cpus[best.value]) {
          best := Some(i);
        }
      }
      LeastLoadedUnique(cpus, best.value);
      cpus := cpus[best.value := Enqueue(cpus[best.value], threads[t].priority, t)];
    }

    /** blocker_push. */
    method BlockerPush(b: Bid, t: Tid)
      requires b < |blockers| && t in threads && forall u :: u in blockers[b] ==> u in threads
      modifies this`blockers
      ensures View() == PutBlocked(old(View()), b, t)
    {
      var list := blockers[b];
      for i := 0 to |list|
        invariant i <= InsertAt(list, threads, threads[t].deadline) && blockers == old(blockers)
      {
        if threads[list[i]].deadline > threads[t].deadline {
          blockers := blockers[b := list[..i] + [t] + list[i..]];
          return;
        }
      }
      assert list[..|list|] + [t] + list[|list|..] == list + [t];
      blockers := blockers[b := list + [t]];
    }

    /** thread_free. */
    method FreeThread(t: Tid)
      requires t in threads
      modifies this`threads, this`refs
      ensures View() == Sched.FreeThread(old(View()), t)
    {
      var p := threads[t].process;
      if p in refs && refs[p] > 1 {
        refs := refs[p := refs[p] - 1];
      } else {
        refs := refs - {p};
      }
      threads := threads - {t};
    }

    /** sched_unblock. */
    method UnblockThreads(b: Bid)
      requires Inv(View()) && b < |blockers|
      modifies this
      ensures View() == UnblockAll(old(View()), b)
    {
      hide EachOnce, QueuesOk, ListsOk, RefsOk, LeastLoaded, PutReady;
      while blockers[b] != []
        invariant Inv(View()) && b < |blockers| && UnblockAll(View(), b) == UnblockAll(old(View()), b)
        decreases |blockers[b]|
      {
        ghost var s := View();
        HeadIsLive(s, b);
        WakeHeadKeeps(s, b);
        var t := blockers[b][0];
        blockers := blockers[b := blockers[b][1..]];
        threads := threads[t := threads[t].(deadline := 0, result := Norm, blocker := None)];
        PushThread(t);
        assert View() == WakeHead(s, b);
      }
    }

    /** sched_update_blockers. */
    method UpdateBlockers(now: nat)
      requires Inv(View())
      modifies this
      ensures View() == TimeoutsFrom(old(View()), 0, now)
    {
      hide EachOnce, QueuesOk, ListsOk, RefsOk, LeastLoaded, PutReady;
      for b := 0 to |blockers|
        invariant Inv(View()) && |blockers| == |old(blockers)|
        invariant TimeoutsFrom(View(), b, now) == TimeoutsFrom(old(View()), 0, now)
      {
        ghost var s := View();
        TimeoutHeadKeeps(s, b, now);
        if blockers[b] != [] {
          HeadIsLive(s, b);
          var t := blockers[b][0];
          if threads[t].deadline < now {
            threads := threads[t := threads[t].(result := Timeout, blocker := None)];
            blockers := blockers[b := blockers[b][1..]];
            PushThread(t);
          }
        }
        assert View() == TimeoutHead(s, b, now);
      }
    }

    /** sched_update_graveyard. */
    method UpdateGraveyard(c: nat, trapUser: bool)
      requires Inv(View()) && c < |cpus|
      modifies this
      ensures View() == Bury(EmptyGraveyard(old(View()), c), c, trapUser)
    {
      hide EachOnce, QueuesOk, ListsOk, RefsOk;
      while cpus[c].graveyard != []
        invariant Inv(View()) && c < |cpus| && EmptyGraveyard(View(), c) == EmptyGraveyard(old(View()), c)
        decreases if c < |cpus| then |cpus[c].graveyard| else 0
      {
        ghost var s := View();
        FreeGraveKeeps(s, c);
        DropGraveKeeps(s, c);
        var t := cpus[c].graveyard[0];
        cpus := cpus[c := cpus[c].(graveyard := cpus[c].graveyard[1..])];
        FreeThread(t);
        assert View() == FreeGrave(s, c);
      }
      RunningLives(View(), c);
      if cpus[c].run.Some? {
        var t := cpus[c].run.value;
        if threads[t].killed || (threads[t].process in killedProcs && trapUser) {
          cpus := cpus[c := cpus[c].(graveyard := cpus[c].graveyard + [t], run := None)];
        }
      }
    }

    /** sched_context_find_any (lo = 0) and sched_context_find_higher (lo = priority + 1). */
    method FindReady(c: nat, lo: nat) returns (r: Option<Tid>)
      requires Inv(View()) && c < |cpus| && lo <= LEVELS
      modifies this
      ensures (r, View()) == Find(old(View()), c, lo, LEVELS - 1)
      decreases if c < |cpus| && ContextOk(cpus[c]) then QueueTotal(cpus[c]) else 0
    {
      hide EachOnce, QueuesOk, ListsOk, RefsOk;
      ghost var s := View();
      var i := LEVELS - 1;
      while i >= lo
        invariant lo - 1 <= i < LEVELS && View() == s && EmptyAbove(cpus[c], i)
        decreases i
      {
        if cpus[c].queues[i] != [] {
          FindSkipsEmpty(s, c, lo, i, LEVELS - 1);
          DropSearched(s, c, i);
          DropReadyKeeps(s, c, i);
          var t := cpus[c].queues[i][0];
          cpus := cpus[c := Dequeue(cpus[c], i)];
          if threads[t].process in killedProcs && threads[t].userMode {
            FreeOutKeeps(View(), t);
            FreeThread(t);
            ghost var s1 := View();
            FindSkipsEmpty(s1, c, lo, i, LEVELS - 1);
            r := FindReady(c, lo);
            return;
          }
          return Some(t);
        }
        i := i - 1;
      }
      FindSkipsEmpty(s, c, lo, i, LEVELS - 1);
      return None;
    }

    /** The first branch of sched_schedule, and the end of the second: something is loaded into the empty run slot. */
    method LoadNext(c: nat, now: nat)
      requires Inv(View()) && c < |cpus| && cpus[c].run == None
      modifies this
      ensures View() == DispatchIdle(old(View()), c, now)
    {
      hide EachOnce, QueuesOk, ListsOk, RefsOk;
      ghost var s := View();
      var next := FindReady(c, 0);
      if next.Some? {
        var t := next.value;
        threads := threads[t := threads[t].(timeEnd := (now + TIME_SLICE) % TIMES)];
        cpus := cpus[c := cpus[c].(run := next)];
      }
    }

    /** The second branch: the running thread goes to the list it asked to block on. */
    method BlockRunning(c: nat, trapUser: bool, now: nat)
      requires Inv(View()) && Running(View(), c) && threads[cpus[c].run.value].blocker.Some?
      modifies this
      ensures View() == DispatchBlocked(old(View()), c, trapUser, now)
    {
      hide EachOnce, QueuesOk, ListsOk, RefsOk, DispatchIdle;
      ParkKeeps(View(), c, trapUser);
      var t := cpus[c].run.value;
      var b := threads[t].blocker.value;
      threads := threads[t := threads[t].(userMode := trapUser)];
      cpus := cpus[c := cpus[c].(run := None)];
      BlockerPush(b, t);
      LoadNext(c, now);
    }

    /** The third branch: the running thread goes on, or goes to its ready queue and another takes its place. */
    method Reconsider(c: nat, trapUser: bool, clock: Clock)
      requires Inv(View()) && Running(View(), c) && threads[cpus[c].run.value].blocker == None
      modifies this
      ensures View() == DispatchRunning(old(View()), c, trapUser, clock)
    {
      hide EachOnce, QueuesOk, ListsOk, RefsOk, Switch;
      var t := cpus[c].run.value;
      var lo := if threads[t].timeEnd < clock.check then 0 else threads[t].priority + 1;
      var next := FindReady(c, lo);
      if next.Some? {
        var n := next.value;
        RunningIsNowhereElse(View(), next, c, t);
        SwitchTo(c, t, n, trapUser, clock.load);
      }
    }

    /** thread_save and sched_context_push of the running thread, then thread_load of the next. */
    method SwitchTo(c: nat, t: Tid, n: Tid, trapUser: bool, now: nat)
      requires Shape(View()) && c < |cpus| && t in threads && n in threads && t != n
      modifies this
      ensures View() == Switch(old(View()), c, t, n, trapUser, now)
    {
      threads := threads[t := threads[t].(userMode := trapUser)];
      cpus := cpus[c := Enqueue(cpus[c], threads[t].priority, t)];
      threads := threads[n := threads[n].(timeEnd := (now + TIME_SLICE) % TIMES)];
      cpus := cpus[c := cpus[c].(run := Some(n))];
    }

    /** sched_schedule. */
    method Schedule(c: nat, trapDepth: nat, trapUser: bool, clock: Clock)
      requires Inv(View()) && c < |cpus|
      modifies this
      ensures View() == SchedSteps.Schedule(old(View()), c, trapDepth, trapUser, clock)
    {
      hide EachOnce, QueuesOk, ListsOk, RefsOk;
      if trapDepth > 1 { return; }
      if c == 0 { UpdateBlockers(clock.pass); }
      UpdateGraveyard(c, trapUser);
      RunningLives(View(), c);
      if cpus[c].run.None? {
        LoadNext(c, clock.load);
      } else if threads[cpus[c].run.value].blocker.Some? {
        BlockRunning(c, trapUser, clock.load);
      } else {
        Reconsider(c, trapUser, clock);
      }
    }
  }
}
