/**
 The order in which blocked threads wait and wake.  Every step of the scheduler drops some threads from the front of
 a list of blocked threads and inserts at most one newcomer; from this follow, over whole runs, first in first out among
 equal deadlines, waking in the order of deadlines, and that a thread that waits for ever never times out.
 */
module SchedOrder {
  import opened Options
  import opened Sched
  import opened SchedSteps

  // ---------- A blocked thread is in one place of one list ----------

  /** u stands before t. */
  ghost predicate Before(list: seq<Tid>, u: Tid, t: Tid) {
    exists p, q :: 0 <= p < q < |list| && list[p] == u && list[q] == t
  }

  predicate NoRepeats(list: seq<Tid>) { forall p, q :: 0 <= p < q < |list| ==> list[p] != list[q] }

  lemma {:induction false} OnTwoLists(lists: seq<seq<Tid>>, a: nat, b: nat, t: Tid)
    requires a < b < |lists|
    ensures PlacesOnLists(lists, t) >= Occurs(lists[a], t) + Occurs(lists[b], t)
    decreases |lists|
  {
    hide Occurs;
    if a > 0 { OnTwoLists(lists[1..], a - 1, b - 1, t); } else { OnList(lists[1..], b - 1, t); }
  }

  lemma ListedCounts(s: State, out: Option<Tid>, b: Bid, t: Tid)
    requires InvOut(s, out) && b < |s.blockers| && t in s.blockers[b]
    ensures t in s.threads && out != Some(t) && PlacesOnCpus(s.cpus, t) == 0
    ensures PlacesOnLists(s.blockers, t) == 1 && Occurs(s.blockers[b], t) == 1
  {
    assert PlacesOf(s, t) + Out(out, t) == if t in s.threads then 1 else 0;
    hide EachOnce, QueuesOk, ListsOk, RefsOk;
    OnList(s.blockers, b, t);
    assert t in multiset(s.blockers[b]);
  }

  /** A blocked thread runs nowhere, is ready nowhere, is not about to be freed, and is in no other list. */
  lemma ListedIsNowhereElse(s: State, out: Option<Tid>, b: Bid, t: Tid)
    requires InvOut(s, out) && b < |s.blockers| && t in s.blockers[b]
    ensures t in s.threads && out != Some(t)
    ensures forall c :: 0 <= c < |s.cpus| ==>
      s.cpus[c].run != Some(t) && t !in s.cpus[c].graveyard && !InQueues(s.cpus[c], t)
    ensures forall a :: 0 <= a < |s.blockers| && a != b ==> t !in s.blockers[a]
  {
    ListedCounts(s, out, b, t);
    hide EachOnce, QueuesOk, ListsOk, RefsOk;
    forall c | 0 <= c < |s.cpus|
      ensures s.cpus[c].run != Some(t) && t !in s.cpus[c].graveyard && !InQueues(s.cpus[c], t)
    {
      OnCpu(s.cpus, c, t);
      ContextCounts(s.cpus[c], t);
    }
    forall a | 0 <= a < |s.blockers| && a != b ensures t !in s.blockers[a] {
      if a < b { OnTwoLists(s.blockers, a, b, t); } else { OnTwoLists(s.blockers, b, a, t); }
      OccursIn(s.blockers[a], t);
    }
  }

  lemma OccursIn(list: seq<Tid>, t: Tid)
    ensures t in list <==> Occurs(list, t) > 0
  {
    assert t in list <==> t in multiset(list);
  }

  lemma ListHasNoRepeats(s: State, b: Bid)
    requires Inv(s) && b < |s.blockers|
    ensures NoRepeats(s.blockers[b])
  {
    var list := s.blockers[b];
    forall p, q | 0 <= p < q < |list| ensures list[p] != list[q] {
      ListedCounts(s, None, b, list[q]);
      hide InvOut;
      assert list == list[..q] + list[q..];
      assert list[p] in list[..q] && list[q] in list[q..];
      assert Occurs(list, list[q]) == Occurs(list[..q], list[q]) + Occurs(list[q..], list[q]);
    }
  }

  // ---------- Steps that leave the lists alone ----------

  /** From s to r the lists are the same, and so are the threads in them. */
  ghost predicate ListsKept(s: State, r: State) {
    && r.blockers == s.blockers
    && forall b, t :: 0 <= b < |s.blockers| && t in s.blockers[b] ==>
         t in s.threads && t in r.threads && r.threads[t] == s.threads[t]
  }

  lemma ListsKeptTrans(a: State, b: State, c: State)
    requires ListsKept(a, b) && ListsKept(b, c)
    ensures ListsKept(a, c)
  {
  }

  lemma ListsKeptRefl(s: State, out: Option<Tid>)
    requires InvOut(s, out)
    ensures ListsKept(s, s)
  {
    forall b, t | 0 <= b < |s.blockers| && t in s.blockers[b] ensures t in s.threads {
      ListedIsNowhereElse(s, out, b, t);
    }
  }

  /** Changing a thread that is in no list. */
  lemma SetKeepsLists(s: State, out: Option<Tid>, t: Tid, th: Thread)
    requires InvOut(s, out) && forall b :: 0 <= b < |s.blockers| ==> t !in s.blockers[b]
    ensures ListsKept(s, SetThread(s, t, th))
  {
    ListsKeptRefl(s, out);
    hide InvOut;
  }

  lemma FreeGraveKeepsLists(s: State, c: nat)
    requires Inv(s) && c < |s.cpus| && s.cpus[c].graveyard != []
    ensures ListsKept(s, FreeGrave(s, c))
  {
    hide InvOut;
    DropGraveKeeps(s, c);
    var t := s.cpus[c].graveyard[0];
    OutIsNowhere(DropGrave(s, c), t);
    ListsKeptRefl(s, None);
  }

  lemma {:induction false} GraveyardKeepsLists(s: State, c: nat)
    requires Inv(s) && c < |s.cpus|
    ensures ListsKept(s, EmptyGraveyard(s, c))
    decreases |s.cpus[c].graveyard|
  {
    hide InvOut, FreeGrave, ListsKept;
    if s.cpus[c].graveyard == [] {
      ListsKeptRefl(s, None);
    } else {
      FreeGraveKeeps(s, c);
      FreeGraveKeepsLists(s, c);
      GraveyardKeepsLists(FreeGrave(s, c), c);
      ListsKeptTrans(s, FreeGrave(s, c), EmptyGraveyard(s, c));
    }
  }

  lemma SearchKeepsLists(s: State, c: nat, r: State)
    requires Inv(s) && c < |s.cpus| && Searched(s, c, r)
    ensures ListsKept(s, r)
  {
    forall b, t | 0 <= b < |s.blockers| && t in s.blockers[b]
      ensures t in s.threads && t in r.threads && r.threads[t] == s.threads[t]
    {
      ListedIsNowhereElse(s, None, b, t);
      hide InvOut;
    }
  }

  lemma LoadKeepsLists(s: State, c: nat, t: Tid, now: nat)
    requires InvOut(s, Some(t)) && c < |s.cpus| && t in s.threads
    ensures ListsKept(s, LoadInto(s, c, t, now))
  {
    OutIsNowhere(s, t);
    SetKeepsLists(s, Some(t), t, Loaded(s.threads[t], now));
    hide InvOut;
  }

  lemma IdleKeepsLists(s: State, c: nat, now: nat)
    requires Inv(s) && c < |s.cpus| && s.cpus[c].run == None
    ensures ListsKept(s, DispatchIdle(s, c, now))
  {
    hide EachOnce, QueuesOk, ListsOk, RefsOk, InQueues, Find, ListsKept, LoadInto;
    var (n, s1) := Find(s, c, 0, LEVELS - 1);
    SearchKeepsLists(s, c, s1);
    if n.Some? {
      LoadKeepsLists(s1, c, n.value, now);
      ListsKeptTrans(s, s1, LoadInto(s1, c, n.value, now));
    }
  }

  lemma SwitchKeepsLists(s: State, c: nat, t: Tid, n: Tid, trapUser: bool, now: nat)
    requires InvOut(s, Some(n)) && c < |s.cpus| && s.cpus[c].run == Some(t) && t in s.threads && n in s.threads
    requires t != n
    ensures ListsKept(s, Switch(s, c, t, n, trapUser, now))
  {
    OutIsNowhere(s, n);
    RunningIsNowhereElse(s, Some(n), c, t);
    ListsKeptRefl(s, Some(n));
    hide EachOnce, QueuesOk, ListsOk, RefsOk;
  }

  lemma RunningKeepsLists(s: State, c: nat, trapUser: bool, clock: Clock)
    requires Inv(s) && Running(s, c) && s.threads[s.cpus[c].run.value].blocker == None
    ensures ListsKept(s, DispatchRunning(s, c, trapUser, clock))
  {
    hide EachOnce, QueuesOk, ListsOk, RefsOk, InQueues, Find, ListsKept, Switch;
    var t := s.cpus[c].run.value;
    var lo := if s.threads[t].timeEnd < clock.check then 0 else s.threads[t].priority + 1;
    var (n, s1) := Find(s, c, lo, LEVELS - 1);
    SearchKeepsLists(s, c, s1);
    if n.Some? {
      RunningIsNowhereElse(s1, n, c, t);
      SwitchKeepsLists(s1, c, t, n.value, trapUser, clock.load);
      ListsKeptTrans(s, s1, Switch(s1, c, t, n.value, trapUser, clock.load));
    }
  }

  // ---------- One pass over the deadlines ----------

  /** t heads a list from b on and waited past its deadline. */
  ghost predicate TimesOut(s: State, b: Bid, now: nat, t: Tid) {
    exists a :: b <= a < |s.blockers| && Overdue(s, a, now) && s.blockers[a][0] == t
  }

  function TimedOut(th: Thread): Thread { th.(result := Timeout, blocker := None) }

  lemma TimeoutHeadEffect(s: State, b: Bid, now: nat)
    requires Inv(s) && b < |s.blockers|
    ensures var r := TimeoutHead(s, b, now);
            if Overdue(s, b, now) then
              var t := s.blockers[b][0];
              r.blockers == s.blockers[b := s.blockers[b][1..]] && r.threads == s.threads[t := TimedOut(s.threads[t])]
            else r == s
  {
    hide EachOnce, QueuesOk, ListsOk, RefsOk;
    if Overdue(s, b, now) {
      var t := s.blockers[b][0];
      PushFrame(SetThread(DropHead(s, b), t, TimedOut(s.threads[t])), t);
    }
  }

  /** Waking the head of one list makes no difference to whether the head of another is overdue. */
  lemma OverdueElsewhere(s: State, b: Bid, now: nat, a: Bid)
    requires Inv(s) && b < |s.blockers| && a < |s.blockers| && a != b
    ensures Overdue(TimeoutHead(s, b, now), a, now) <==> Overdue(s, a, now)
    ensures TimeoutHead(s, b, now).blockers[a] == s.blockers[a]
  {
    hide EachOnce, QueuesOk, ListsOk, RefsOk, TimeoutHead, InQueues;
    TimeoutHeadEffect(s, b, now);
    if s.blockers[a] != [] { ListedIsNowhereElse(s, None, a, s.blockers[a][0]); }
    if Overdue(s, b, now) { assert s.blockers[b][0] in s.blockers[b]; }
  }

  /** A pass drops the head of exactly the lists whose head is overdue. */
  lemma {:induction false} PassDropsHeads(s: State, b: Bid, now: nat, a: Bid)
    requires Inv(s) && b <= |s.blockers| && a < |s.blockers|
    ensures var r := TimeoutsFrom(s, b, now);
            && |r.blockers| == |s.blockers|
            && r.blockers[a] == if b <= a && Overdue(s, a, now) then s.blockers[a][1..] else s.blockers[a]
    decreases |s.blockers| - b
  {
    hide EachOnce, QueuesOk, ListsOk, RefsOk, Overdue, TimeoutHead, CpusOk;
    if b < |s.blockers| {
      TimeoutHeadKeeps(s, b, now);
      TimeoutHeadEffect(s, b, now);
      if a != b { OverdueElsewhere(s, b, now, a); }
      PassDropsHeads(TimeoutHead(s, b, now), b + 1, now, a);
    }
  }

  /** A pass wakes exactly the threads at those heads, with the result Timeout, and changes no other thread. */
  lemma {:induction false} PassWakesHeads(s: State, b: Bid, now: nat, t: Tid)
    requires Inv(s) && b <= |s.blockers| && t in s.threads
    ensures var r := TimeoutsFrom(s, b, now);
            t in r.threads && r.threads[t] == if TimesOut(s, b, now, t) then TimedOut(s.threads[t]) else s.threads[t]
    decreases |s.blockers| - b
  {
    hide EachOnce, QueuesOk, ListsOk, RefsOk, Overdue, TimeoutHead, CpusOk, TimesOut;
    if b < |s.blockers| {
      var s1 := TimeoutHead(s, b, now);
      TimeoutHeadKeeps(s, b, now);
      TimeoutHeadEffect(s, b, now);
      PassWakesHeads(s1, b + 1, now, t);
      LaterHeads(s, b, now, t);
    } else {
      NoHeads(s, b, now, t);
    }
  }

  lemma NoHeads(s: State, b: Bid, now: nat, t: Tid)
    requires b >= |s.blockers|
    ensures !TimesOut(s, b, now, t)
  {
  }

  lemma LaterHeads(s: State, b: Bid, now: nat, t: Tid)
    requires Inv(s) && b < |s.blockers|
    ensures TimesOut(s, b, now, t) <==>
      (Overdue(s, b, now) && s.blockers[b][0] == t) || TimesOut(TimeoutHead(s, b, now), b + 1, now, t)
    ensures Overdue(s, b, now) && s.blockers[b][0] == t ==> !TimesOut(TimeoutHead(s, b, now), b + 1, now, t)
  {
    hide EachOnce, QueuesOk, ListsOk, RefsOk, TimeoutHead;
    var s1 := TimeoutHead(s, b, now);
    TimeoutHeadEffect(s, b, now);
    forall a | b < a < |s.blockers|
      ensures Overdue(s1, a, now) == Overdue(s, a, now) && s1.blockers[a] == s.blockers[a]
      ensures Overdue(s, b, now) && Overdue(s, a, now) ==> s.blockers[a][0] != s.blockers[b][0]
    {
      OverdueElsewhere(s, b, now, a);
      if Overdue(s, b, now) && Overdue(s, a, now) { HeadsDiffer(s, b, a); }
    }
    hide InvOut, Overdue;
  }

  lemma HeadsDiffer(s: State, a: Bid, b: Bid)
    requires Inv(s) && a < |s.blockers| && b < |s.blockers| && a != b && s.blockers[a] != [] && s.blockers[b] != []
    ensures s.blockers[a][0] != s.blockers[b][0]
  {
    ListedIsNowhereElse(s, None, a, s.blockers[a][0]);
    hide InvOut;
    assert s.blockers[b][0] in s.blockers[b];
  }

  // ---------- Repeated passes ----------

  /** Any number of passes at the same time. */
  ghost function Passes(s: State, now: nat, m: nat): (r: State)
    requires Inv(s)
    ensures Inv(r)
    decreases m
  {
    hide InvOut;
    if m == 0 then s else Passes(TimeoutsFrom(s, 0, now), now, m - 1)
  }

  /** How many threads of a list have waited past their deadlines: they stand at its front. */
  function OverdueAmount(list: seq<Tid>, threads: map<Tid, Thread>, now: nat): (k: nat)
    requires forall t :: t in list ==> t in threads
    ensures k <= |list| && (forall i :: 0 <= i < k ==> threads[list[i]].deadline < now)
    ensures k < |list| ==> threads[list[k]].deadline >= now
  {
    if list == [] || threads[list[0]].deadline >= now then 0 else 1 + OverdueAmount(list[1..], threads, now)
  }

  lemma ListedAreLive(s: State, b: Bid)
    requires Inv(s) && b < |s.blockers|
    ensures forall t :: t in s.blockers[b] ==> t in s.threads
  {
    assert ListOk(s.threads, b, s.blockers[b]);
  }

  /** The overdue threads of a list are those in front, and no others: deadlines stand in order. */
  lemma OverdueInFront(s: State, b: Bid, now: nat, i: nat)
    requires Inv(s) && b < |s.blockers| && i < |s.blockers[b]|
    ensures forall t :: t in s.blockers[b] ==> t in s.threads
    ensures s.threads[s.blockers[b][i]].deadline < now <==> i < OverdueAmount(s.blockers[b], s.threads, now)
  {
    assert ListOk(s.threads, b, s.blockers[b]);
    hide InvOut;
    FrontOfList(s.blockers[b], s.threads, b, now, i);
  }

  lemma FrontOfList(list: seq<Tid>, threads: map<Tid, Thread>, b: Bid, now: nat, i: nat)
    requires ListOk(threads, b, list) && i < |list|
    ensures list[i] in threads && (threads[list[i]].deadline < now <==> i < OverdueAmount(list, threads, now))
  {
    var k := OverdueAmount(list, threads, now);
    hide ListOk, OverdueAmount;
    if k <= i { SortedPair(list, threads, b, k, i); }
  }

  /** m passes wake the first m overdue threads of every list, in list order, and none that is not overdue. */
  lemma {:induction false} PassesDropOverdue(s: State, now: nat, m: nat, b: Bid)
    requires Inv(s) && b < |s.blockers|
    ensures forall t :: t in s.blockers[b] ==> t in s.threads
    ensures var r, k := Passes(s, now, m), OverdueAmount(s.blockers[b], s.threads, now);
            b < |r.blockers| && r.blockers[b] == s.blockers[b][if m < k then m else k..]
    decreases m
  {
    hide InvOut, Overdue, TimeoutsFrom;
    ListedAreLive(s, b);
    if m > 0 {
      var s1 := TimeoutsFrom(s, 0, now);
      PassAmount(s, now, b);
      PassesDropOverdue(s1, now, m - 1, b);
    }
  }

  /** One pass, seen from one list: one thread fewer, and one overdue thread fewer, if there was one. */
  lemma PassAmount(s: State, now: nat, b: Bid)
    requires Inv(s) && b < |s.blockers| && forall t :: t in s.blockers[b] ==> t in s.threads
    ensures var r, list := TimeoutsFrom(s, 0, now), s.blockers[b]; var k := OverdueAmount(list, s.threads, now);
            && b < |r.blockers| && r.blockers[b] == (if k > 0 then list[1..] else list)
            && (forall t :: t in r.blockers[b] ==> t in r.threads)
            && OverdueAmount(r.blockers[b], r.threads, now) == if k > 0 then k - 1 else 0
  {
    hide TimeoutsFrom;
    PassList(s, now, b);
    PassKeepsRest(s, now, b);
    hide InvOut;
    var r := TimeoutsFrom(s, 0, now);
    SameAmount(r.blockers[b], s.threads, r.threads, now);
  }

  lemma PassList(s: State, now: nat, b: Bid)
    requires Inv(s) && b < |s.blockers| && forall t :: t in s.blockers[b] ==> t in s.threads
    ensures var r, list := TimeoutsFrom(s, 0, now), s.blockers[b]; var k := OverdueAmount(list, s.threads, now);
            |r.blockers| == |s.blockers| && r.blockers[b] == if k > 0 then list[1..] else list
  {
    var list := s.blockers[b];
    PassDropsHeads(s, 0, now, b);
    hide InvOut, TimeoutsFrom;
    assert list != [] ==> list[0] in list;
  }

  lemma PassKeepsRest(s: State, now: nat, b: Bid)
    requires Inv(s) && b < |s.blockers| && |TimeoutsFrom(s, 0, now).blockers| == |s.blockers|
    ensures var r := TimeoutsFrom(s, 0, now);
            forall t :: t in r.blockers[b] ==> t in s.threads && t in r.threads && r.threads[t] == s.threads[t]
  {
    hide InvOut, TimeoutsFrom;
    forall t | t in TimeoutsFrom(s, 0, now).blockers[b]
      ensures t in s.threads && t in TimeoutsFrom(s, 0, now).threads
      ensures TimeoutsFrom(s, 0, now).threads[t] == s.threads[t]
    {
      StaysAsIs(s, b, now, t);
    }
  }

  lemma {:induction false} SameAmount(list: seq<Tid>, a: map<Tid, Thread>, b: map<Tid, Thread>, now: nat)
    requires forall t :: t in list ==> t in a && t in b && a[t] == b[t]
    ensures OverdueAmount(list, a, now) == OverdueAmount(list, b, now)
  {
    if list != [] { SameAmount(list[1..], a, b, now); }
  }

  /** A thread that a pass leaves in its list is left as it is. */
  lemma StaysAsIs(s: State, b: Bid, now: nat, t: Tid)
    requires Inv(s) && b < |s.blockers| && |TimeoutsFrom(s, 0, now).blockers| == |s.blockers|
    requires t in TimeoutsFrom(s, 0, now).blockers[b]
    ensures t in s.blockers[b] && t in s.threads
    ensures t in TimeoutsFrom(s, 0, now).threads && TimeoutsFrom(s, 0, now).threads[t] == s.threads[t]
  {
    PassDropsHeads(s, 0, now, b);
    ListedAreLive(s, b);
    PassWakesHeads(s, 0, now, t);
    ListHasNoRepeats(s, b);
    ListedIsNowhereElse(s, None, b, t);
    hide InvOut, TimeoutsFrom;
    forall a | 0 <= a < |s.blockers| && Overdue(s, a, now) ensures s.blockers[a][0] != t {
      assert s.blockers[a][0] in s.blockers[a];
    }
  }

  // ---------- One event, seen from one list ----------

  /** From s to r list b lost its first d threads and then gained newcomer, if any, in its place; the threads that
      stayed did not change. */
  ghost predicate Turned(s: State, r: State, b: Bid, d: nat, newcomer: Option<Tid>) {
    && b < |s.blockers| && b < |r.blockers| && d <= |s.blockers[b]|
    && var stay := s.blockers[b][d..];
       && (forall t :: t in stay ==> t in s.threads && t in r.threads && r.threads[t] == s.threads[t])
       && match newcomer
          case None => r.blockers[b] == stay
          case Some(t) => t in r.threads && t !in s.blockers[b] && r.blockers[b] == Insert(stay, r.threads, t)
  }

  /** How many threads an event drops from the front of list b. */
  function Dropped(s: State, e: Event, b: Bid): nat
    requires b < |s.blockers|
  {
    match e
    case Tick(c, trapDepth, _, clock) => if trapDepth <= 1 && c == 0 && Overdue(s, b, clock.pass) then 1 else 0
    case Unblock(a) => if a == b then |s.blockers[b]| else 0
    case _ => 0
  }

  lemma KeptIsTurned(s: State, r: State, b: Bid)
    requires ListsKept(s, r) && b < |s.blockers|
    ensures Turned(s, r, b, 0, None)
  {
    assert s.blockers[b][0..] == s.blockers[b];
  }

  /** Steps that leave the lists alone may follow a step that does not. */
  lemma TurnedThenKept(s: State, m: State, r: State, b: Bid, d: nat, newcomer: Option<Tid>)
    requires Turned(s, m, b, d, newcomer) && ListsKept(m, r)
    ensures Turned(s, r, b, d, newcomer)
  {
    var stay := s.blockers[b][d..];
    if newcomer.Some? {
      var t := newcomer.value;
      var i := InsertAt(stay, m.threads, m.threads[t].deadline);
      assert m.blockers[b] == stay[..i] + [t] + stay[i..];
      assert forall u :: u in m.blockers[b] <==> u in stay || u == t;
      assert t in m.blockers[b];
      SameInsert(stay, m.threads, r.threads, t);
    }
  }

  lemma {:induction false} SameInsertAt(list: seq<Tid>, a: map<Tid, Thread>, b: map<Tid, Thread>, deadline: nat)
    requires forall t :: t in list ==> t in a && t in b && a[t] == b[t]
    ensures InsertAt(list, a, deadline) == InsertAt(list, b, deadline)
  {
    if list != [] { SameInsertAt(list[1..], a, b, deadline); }
  }

  lemma SameInsert(list: seq<Tid>, a: map<Tid, Thread>, b: map<Tid, Thread>, t: Tid)
    requires (forall u :: u in list ==> u in a && u in b && a[u] == b[u]) && t in a && t in b && a[t] == b[t]
    ensures Insert(list, a, t) == Insert(list, b, t)
  {
    SameInsertAt(list, a, b, a[t].deadline);
  }

  lemma PassTurns(s: State, now: nat, b: Bid)
    requires Inv(s) && b < |s.blockers|
    ensures Turned(s, TimeoutsFrom(s, 0, now), b, if Overdue(s, b, now) then 1 else 0, None)
  {
    hide InvOut, TimeoutsFrom;
    var r := TimeoutsFrom(s, 0, now);
    PassDropsHeads(s, 0, now, b);
    forall t | t in r.blockers[b] ensures t in s.threads && t in r.threads && r.threads[t] == s.threads[t] {
      StaysAsIs(s, b, now, t);
    }
    assert s.blockers[b][0..] == s.blockers[b];
  }

  /** Parking the running thread inserts it into the list it asked for. */
  lemma ParkTurns(s: State, c: nat, trapUser: bool, b: Bid)
    requires Inv(s) && Running(s, c) && s.threads[s.cpus[c].run.value].blocker.Some? && b < |s.blockers|
    ensures var t := s.cpus[c].run.value; var a := s.threads[t].blocker.value;
            && a < |s.blockers| && (forall u :: u in s.blockers[a] ==> u in s.threads)
            && Turned(s, Park(s, c, trapUser), b, 0, if a == b then Some(t) else None)
  {
    hide InvOut, Park;
    ParkKeeps(s, c, trapUser);
    var t := s.cpus[c].run.value;
    RunningIsNowhereElse(s, None, c, t);
    ListsKeptRefl(s, None);
    ParkEffect(s, c, trapUser);
    InsertTurns(s, Park(s, c, trapUser), s.threads[t].blocker.value, t, b);
  }

  lemma ParkEffect(s: State, c: nat, trapUser: bool)
    requires Running(s, c) && s.threads[s.cpus[c].run.value].blocker.Some?
    requires var b := s.threads[s.cpus[c].run.value].blocker.value;
             b < |s.blockers| && forall u :: u in s.blockers[b] ==> u in s.threads
    ensures var r, t := Park(s, c, trapUser), s.cpus[c].run.value; var b := s.threads[t].blocker.value;
            && t in r.threads && (forall u :: u in s.threads ==> u in r.threads)
            && (forall u :: u in s.threads && u != t ==> r.threads[u] == s.threads[u])
            && r.blockers == s.blockers[b := Insert(s.blockers[b], r.threads, t)]
  {
    hide Insert;
  }

  lemma InsertTurns(s: State, r: State, a: Bid, t: Tid, b: Bid)
    requires a < |s.blockers| && b < |s.blockers| && t in r.threads && t !in s.blockers[a] && t !in s.blockers[b]
    requires (forall u :: u in s.blockers[a] ==> u in r.threads)
    requires ListsKept(s, s) && (forall u :: u in s.threads ==> u in r.threads)
    requires forall u :: u in s.threads && u != t ==> r.threads[u] == s.threads[u]
    requires r.blockers == s.blockers[a := Insert(s.blockers[a], r.threads, t)]
    ensures Turned(s, r, b, 0, if a == b then Some(t) else None)
  {
    hide Insert;
    assert s.blockers[b][0..] == s.blockers[b];
  }

  lemma TurnedTrans(s: State, m: State, r: State, b: Bid, d: nat, newcomer: Option<Tid>)
    requires Turned(s, m, b, d, None) && Turned(m, r, b, 0, newcomer)
    requires newcomer.Some? ==> newcomer.value !in s.blockers[b]
    ensures Turned(s, r, b, d, newcomer)
  {
    hide Insert;
    assert m.blockers[b][0..] == m.blockers[b];
  }

  lemma BuryKeepsLists(s: State, c: nat, trapUser: bool)
    requires Inv(s) && c < |s.cpus|
    ensures ListsKept(s, Bury(s, c, trapUser))
  {
    ListsKeptRefl(s, None);
    hide InvOut, ListsKept;
    assert Bury(s, c, trapUser).blockers == s.blockers;
    SameLists(s, Bury(s, c, trapUser));
  }

  lemma SameLists(s: State, r: State)
    requires ListsKept(s, s) && r.blockers == s.blockers && r.threads == s.threads
    ensures ListsKept(s, r)
  {
  }

  /** Before it chooses, sched_schedule touches the lists only by its pass over the deadlines, on CPU 0. */
  lemma PreparedTurns(s: State, c: nat, trapUser: bool, now: nat, b: Bid)
    requires Inv(s) && c < |s.cpus| && b < |s.blockers|
    ensures Turned(s, Prepared(s, c, trapUser, now), b, if c == 0 && Overdue(s, b, now) then 1 else 0, None)
    ensures var r := Prepared(s, c, trapUser, now); r.cpus[c].run.Some? ==> r.cpus[c].run == s.cpus[c].run
  {
    hide InvOut, ListsKept, Turned, TimeoutsFrom, EmptyGraveyard, Overdue, Doomed;
    var s1 := if c == 0 then TimeoutsFrom(s, 0, now) else s;
    if c == 0 {
      PassTurns(s, now, b);
    } else {
      ListsKeptRefl(s, None);
      KeptIsTurned(s, s, b);
    }
    var s2 := EmptyGraveyard(s1, c);
    GraveyardKeepsLists(s1, c);
    BuryKeepsLists(s2, c, trapUser);
    ListsKeptTrans(s1, s2, Bury(s2, c, trapUser));
    TurnedThenKept(s, s1, Bury(s2, c, trapUser), b, if c == 0 && Overdue(s, b, now) then 1 else 0, None);
  }

  lemma DispatchTurns(s: State, c: nat, trapUser: bool, clock: Clock, b: Bid) returns (newcomer: Option<Tid>)
    requires Inv(s) && c < |s.cpus| && (s.cpus[c].run.Some? ==> s.cpus[c].run.value in s.threads) && b < |s.blockers|
    ensures Turned(s, Dispatch(s, c, trapUser, clock), b, 0, newcomer)
    ensures newcomer.Some? ==> newcomer == s.cpus[c].run
  {
    hide InvOut, ListsKept, Turned, DispatchIdle, DispatchRunning, Park;
    newcomer := None;
    if s.cpus[c].run.None? {
      IdleKeepsLists(s, c, clock.load);
      KeptIsTurned(s, Dispatch(s, c, trapUser, clock), b);
    } else if s.threads[s.cpus[c].run.value].blocker.Some? {
      ParkKeeps(s, c, trapUser);
      ParkTurns(s, c, trapUser, b);
      if s.threads[s.cpus[c].run.value].blocker.value == b { newcomer := s.cpus[c].run; }
      IdleKeepsLists(Park(s, c, trapUser), c, clock.load);
      TurnedThenKept(s, Park(s, c, trapUser), Dispatch(s, c, trapUser, clock), b, 0, newcomer);
    } else {
      RunningKeepsLists(s, c, trapUser, clock);
      KeptIsTurned(s, Dispatch(s, c, trapUser, clock), b);
    }
  }

  lemma TickTurns(s: State, c: nat, trapDepth: nat, trapUser: bool, clock: Clock, b: Bid)
    returns (newcomer: Option<Tid>)
    requires Inv(s) && c < |s.cpus| && b < |s.blockers|
    ensures Turned(s, Schedule(s, c, trapDepth, trapUser, clock), b,
                   if trapDepth <= 1 && c == 0 && Overdue(s, b, clock.pass) then 1 else 0, newcomer)
  {
    hide InvOut, ListsKept, Turned, Prepared, Dispatch, Overdue;
    newcomer := None;
    if trapDepth > 1 {
      ListsKeptRefl(s, None);
      KeptIsTurned(s, s, b);
    } else {
      var m := Prepared(s, c, trapUser, clock.pass);
      PreparedTurns(s, c, trapUser, clock.pass, b);
      TurnedLists(s, m, b, if c == 0 && Overdue(s, b, clock.pass) then 1 else 0);
      newcomer := DispatchTurns(m, c, trapUser, clock, b);
      if newcomer.Some? { RunningIsNowhereElse(s, None, c, newcomer.value); }
      var d := if c == 0 && Overdue(s, b, clock.pass) then 1 else 0;
      TurnedTrans(s, m, Dispatch(m, c, trapUser, clock), b, d, newcomer);
    }
  }

  lemma TurnedLists(s: State, r: State, b: Bid, d: nat)
    requires Turned(s, r, b, d, None)
    ensures b < |r.blockers|
  {
  }

  // ---------- Unblocking ----------

  lemma WakeEffect(s: State, b: Bid)
    requires Inv(s) && b < |s.blockers| && s.blockers[b] != []
    ensures var t := s.blockers[b][0];
            && t in s.threads && Shape(s) && WakeHead(s, b).blockers == s.blockers[b := s.blockers[b][1..]]
            && WakeHead(s, b).threads == s.threads[t := s.threads[t].(deadline := 0, result := Norm, blocker := None)]
  {
    HeadIsLive(s, b);
    hide EachOnce, QueuesOk, ListsOk, RefsOk;
    var t := s.blockers[b][0];
    PushFrame(SetThread(DropHead(s, b), t, s.threads[t].(deadline := 0, result := Norm, blocker := None)), t);
  }

  /** sched_unblock wakes the whole list with the result Norm and leaves every other thread alone. */
  lemma {:induction false} UnblockWakes(s: State, b: Bid, t: Tid)
    requires Inv(s) && b < |s.blockers| && t in s.threads
    ensures var r := UnblockAll(s, b);
            && t in r.threads
            && if t in s.blockers[b] then r.threads[t] == s.threads[t].(deadline := 0, result := Norm, blocker := None)
               else r.threads[t] == s.threads[t]
    decreases |s.blockers[b]|
  {
    hide EachOnce, QueuesOk, ListsOk, RefsOk, WakeHead;
    if s.blockers[b] != [] {
      HeadIsLive(s, b);
      WakeHeadKeeps(s, b);
      WakeEffect(s, b);
      ListHasNoRepeats(s, b);
      UnblockWakes(WakeHead(s, b), b, t);
    }
  }

  lemma {:induction false} UnblockSparesLists(s: State, b: Bid, a: Bid)
    requires Inv(s) && b < |s.blockers| && a < |s.blockers| && a != b
    ensures UnblockAll(s, b).blockers[a] == s.blockers[a]
    decreases |s.blockers[b]|
  {
    hide EachOnce, QueuesOk, ListsOk, RefsOk, WakeHead;
    if s.blockers[b] != [] {
      HeadIsLive(s, b);
      WakeHeadKeeps(s, b);
      UnblockSparesLists(WakeHead(s, b), b, a);
    }
  }

  lemma UnblockTurns(s: State, b: Bid, a: Bid)
    requires Inv(s) && b < |s.blockers| && a < |s.blockers|
    ensures Turned(s, UnblockAll(s, b), a, if a == b then |s.blockers[a]| else 0, None)
  {
    hide InvOut, UnblockAll;
    var r := UnblockAll(s, b);
    if a != b {
      UnblockSparesLists(s, b, a);
      assert s.blockers[a][0..] == s.blockers[a];
      forall t | t in s.blockers[a] ensures t in s.threads && t in r.threads && r.threads[t] == s.threads[t] {
        ListedIsNowhereElse(s, None, a, t);
        UnblockWakes(s, b, t);
      }
    }
  }

  // ---------- Every event ----------

  lemma ChangeKeepsLists(s: State, c: nat, th: Thread)
    requires Inv(s) && Running(s, c)
    ensures ListsKept(s, SetThread(s, s.cpus[c].run.value, th))
  {
    hide InvOut;
    RunningIsNowhereElse(s, None, c, s.cpus[c].run.value);
    SetKeepsLists(s, None, s.cpus[c].run.value, th);
  }

  lemma SpawnKeepsLists(s: State, t: Tid, th: Thread)
    requires Inv(s) && t !in s.threads && th.priority < LEVELS && th.blocker == None
    ensures var s1 := AddThread(s, t, th); Shape(s1) && t in s1.threads && ListsKept(s, Push(s1, t))
  {
    hide InvOut, Push;
    ListsKeptRefl(s, None);
    SpawnKeeps(s, t, th);
    PushFrame(AddThread(s, t, th), t);
  }

  /** Every event drops threads from the front of a list and inserts at most one that was not in it. */
  lemma StepTurns(s: State, e: Event, b: Bid) returns (newcomer: Option<Tid>)
    requires Inv(s) && Enabled(s, e) && b < |s.blockers|
    ensures Turned(s, Step(s, e), b, Dropped(s, e, b), newcomer)
  {
    hide InvOut, ListsKept, Turned, Overdue, UnblockAll, Schedule;
    newcomer := None;
    match e
    case Tick(c, trapDepth, trapUser, clock) => newcomer := TickTurns(s, c, trapDepth, trapUser, clock, b);
    case Unblock(a) => UnblockTurns(s, a, b);
    case NewBlocker => NewListTurns(s, b);
    case Spawn(t, p, priority) =>
      SpawnKeepsLists(s, t, NewThread(p, priority));
      KeptIsTurned(s, Step(s, e), b);
    case Block(c, _, _, _) => RunningTurns(s, c, Step(s, e), b);
    case Yield(c) => RunningTurns(s, c, Step(s, e), b);
    case ThreadExit(c) => RunningTurns(s, c, Step(s, e), b);
    case ProcessExit(c) => RunningTurns(s, c, Step(s, e), b);
  }

  lemma NewListTurns(s: State, b: Bid)
    requires Inv(s) && b < |s.blockers|
    ensures Turned(s, s.(blockers := s.blockers + [[]]), b, 0, None)
  {
    ListsKeptRefl(s, None);
    hide InvOut;
    assert s.blockers[b][0..] == s.blockers[b];
  }

  /** Changing the fields of a running thread changes no list. */
  lemma RunningTurns(s: State, c: nat, r: State, b: Bid)
    requires Inv(s) && Running(s, c) && b < |s.blockers| && r.blockers == s.blockers
    requires s.cpus[c].run.value in r.threads
    requires r.threads == s.threads[s.cpus[c].run.value := r.threads[s.cpus[c].run.value]]
    ensures Turned(s, r, b, 0, None)
  {
    hide InvOut;
    ChangeKeepsLists(s, c, r.threads[s.cpus[c].run.value]);
    KeptIsTurned(s, r, b);
  }

  // ---------- What one event keeps of the order ----------

  lemma InsertKeepsOrder(list: seq<Tid>, i: nat, n: Tid, p: nat, q: nat)
    requires i <= |list| && p < q < |list|
    ensures Before(list[..i] + [n] + list[i..], list[p], list[q])
  {
    var longer := list[..i] + [n] + list[i..];
    var p', q' := if p < i then p else p + 1, if q < i then q else q + 1;
    InsertedAt(list, i, n, p');
    InsertedAt(list, i, n, q');
    assert longer[p'] == list[p] && longer[q'] == list[q];
  }

  /** As long as the one in front stays, so does the one behind, and it stays behind. */
  lemma TurnedOrder(s: State, r: State, b: Bid, d: nat, newcomer: Option<Tid>, u: Tid, t: Tid)
    requires Turned(s, r, b, d, newcomer) && NoRepeats(s.blockers[b]) && Before(s.blockers[b], u, t)
    requires u in r.blockers[b]
    ensures Before(r.blockers[b], u, t)
  {
    hide Insert, Before, NoRepeats;
    var stay := s.blockers[b][d..];
    BeforeIn(s.blockers[b], u, t);
    if newcomer.Some? { InsertMembers(stay, r.threads, newcomer.value); }
    TailOrder(s.blockers[b], d, u, t);
    if newcomer.Some? { InsertOrder(stay, r.threads, newcomer.value, u, t); }
  }

  lemma BeforeIn(list: seq<Tid>, u: Tid, t: Tid)
    requires Before(list, u, t)
    ensures u in list && t in list
  {
  }

  lemma TailOrder(list: seq<Tid>, d: nat, u: Tid, t: Tid)
    requires NoRepeats(list) && Before(list, u, t) && d <= |list| && u in list[d..]
    ensures Before(list[d..], u, t)
  {
    var stay := list[d..];
    var p, q :| 0 <= p < q < |list| && list[p] == u && list[q] == t;
    var k :| 0 <= k < |stay| && stay[k] == u;
    assert list[d + k] == u;
    assert stay[p - d] == u && stay[q - d] == t;
  }

  lemma InsertOrder(list: seq<Tid>, threads: map<Tid, Thread>, n: Tid, u: Tid, t: Tid)
    requires n in threads && (forall v :: v in list ==> v in threads) && Before(list, u, t)
    ensures Before(Insert(list, threads, n), u, t)
  {
    var i := InsertAt(list, threads, threads[n].deadline);
    hide InsertAt;
    var p, q :| 0 <= p < q < |list| && list[p] == u && list[q] == t;
    InsertKeepsOrder(list, i, n, p, q);
  }

  lemma InsertMembers(list: seq<Tid>, threads: map<Tid, Thread>, n: Tid)
    requires n in threads && forall u :: u in list ==> u in threads
    ensures forall u :: u in Insert(list, threads, n) <==> u in list || u == n
  {
    var i := InsertAt(list, threads, threads[n].deadline);
    assert list == list[..i] + list[i..];
  }

  /** A newcomer stands behind everyone whose deadline is not later, and before everyone else. */
  lemma NewcomerPlace(list: seq<Tid>, threads: map<Tid, Thread>, b: Bid, n: Tid, u: Tid)
    requires ListOk(threads, b, list) && n in threads && u in list
    ensures if threads[u].deadline <= threads[n].deadline then Before(Insert(list, threads, n), u, n)
            else Before(Insert(list, threads, n), n, u)
  {
    var i := InsertAt(list, threads, threads[n].deadline);
    var longer := list[..i] + [n] + list[i..];
    assert Insert(list, threads, n) == longer;
    hide InsertAt, Insert, ListOk;
    var k :| 0 <= k < |list| && list[k] == u;
    InsertedAt(list, i, n, i);
    if k < i {
      InsertedAt(list, i, n, k);
      assert longer[k] == u && longer[i] == n;
    } else {
      SortedPair(list, threads, b, i, k);
      InsertedAt(list, i, n, k + 1);
      assert longer[i] == n && longer[k + 1] == u;
    }
  }

  lemma TurnedJoins(s: State, r: State, b: Bid, d: nat, newcomer: Option<Tid>, u: Tid, t: Tid)
    requires Turned(s, r, b, d, newcomer) && Inv(s)
    requires u in s.blockers[b] && u in r.blockers[b] && t !in s.blockers[b] && t in r.blockers[b]
    ensures newcomer == Some(t) && u in s.threads && t in r.threads
    ensures if s.threads[u].deadline <= r.threads[t].deadline then Before(r.blockers[b], u, t)
      else Before(r.blockers[b], t, u)
  {
    var stay := s.blockers[b][d..];
    StayOk(s, r, b, d, newcomer);
    hide InvOut, ListOk, Insert, Before;
    if newcomer.Some? { InsertMembers(stay, r.threads, newcomer.value); }
    NewcomerPlace(stay, r.threads, b, t, u);
  }

  lemma StayOk(s: State, r: State, b: Bid, d: nat, newcomer: Option<Tid>)
    requires Turned(s, r, b, d, newcomer) && Inv(s)
    ensures ListOk(r.threads, b, s.blockers[b][d..])
  {
    assert ListOk(s.threads, b, s.blockers[b]);
    hide InvOut, Insert;
    TailStaysOk(s.blockers[b], s.threads, r.threads, b, d);
  }

  lemma TailStaysOk(list: seq<Tid>, threads: map<Tid, Thread>, threads': map<Tid, Thread>, b: Bid, d: nat)
    requires ListOk(threads, b, list) && d <= |list|
    requires forall t :: t in list[d..] ==> t in threads && t in threads' && threads'[t] == threads[t]
    ensures ListOk(threads', b, list[d..])
  {
    var stay := list[d..];
    forall i, j | 0 <= i < j < |stay| ensures threads'[stay[i]].deadline <= threads'[stay[j]].deadline {
      SortedPair(list, threads, b, d + i, d + j);
    }
  }

  // ---------- Runs ----------

  lemma RunStep(states: seq<State>, es: seq<Event>, i: nat)
    requires Run(states, es) && i + 1 < |states|
    ensures i < |es| && Inv(states[i]) && Inv(states[i + 1])
    ensures Enabled(states[i], es[i]) && states[i + 1] == Step(states[i], es[i])
  {
    RunKeeps(states, es, i);
    RunKeeps(states, es, i + 1);
    hide InvOut;
  }

  lemma {:induction false} ListsStay(states: seq<State>, es: seq<Event>, i: nat, j: nat, b: Bid)
    requires Run(states, es) && i <= j < |states| && b < |states[i].blockers|
    ensures b < |states[j].blockers|
    decreases j - i
  {
    hide InvOut, Run, Step, Enabled;
    if i < j {
      ListsStay(states, es, i, j - 1, b);
      RunStep(states, es, j - 1);
      var n := StepTurns(states[j - 1], es[j - 1], b);
    }
  }

  /** t waits in list b in every state from i to j. */
  ghost predicate Waits(states: seq<State>, i: nat, j: nat, b: Bid, t: Tid)
    requires i <= j < |states|
  {
    forall k :: i <= k <= j ==> b < |states[k].blockers| && t in states[k].blockers[b]
  }

  lemma StepOrder(s: State, e: Event, b: Bid, u: Tid, t: Tid)
    requires Inv(s) && Enabled(s, e) && b < |s.blockers| && Before(s.blockers[b], u, t)
    requires b < |Step(s, e).blockers| && u in Step(s, e).blockers[b]
    ensures Before(Step(s, e).blockers[b], u, t)
  {
    hide InvOut, Step, Turned, Before, Enabled, Dropped;
    var newcomer := StepTurns(s, e, b);
    ListHasNoRepeats(s, b);
    TurnedOrder(s, Step(s, e), b, Dropped(s, e, b), newcomer, u, t);
  }

  /** Order is kept over every run: as long as u waits in a list, everyone who stood behind it still stands
      behind it. */
  lemma {:induction false} OrderKept(states: seq<State>, es: seq<Event>, i: nat, j: nat, b: Bid, u: Tid, t: Tid)
    requires Run(states, es) && i <= j < |states| && Waits(states, i, j, b, u) && Before(states[i].blockers[b], u, t)
    ensures Before(states[j].blockers[b], u, t)
    decreases j - i
  {
    hide InvOut, Run, Step, Before, Enabled;
    if i < j {
      OrderKept(states, es, i, j - 1, b, u, t);
      RunStep(states, es, j - 1);
      StepOrder(states[j - 1], es[j - 1], b, u, t);
    }
  }

  /** Who stands behind another leaves at the same event only if the whole list is unblocked, never by a timeout. */
  lemma TimeoutWaitsForTurn(states: seq<State>, es: seq<Event>, i: nat, b: Bid, u: Tid, t: Tid)
    requires Run(states, es) && i < |es| && b < |states[i].blockers| && Before(states[i].blockers[b], u, t)
    ensures b < |states[i + 1].blockers| && (t in states[i + 1].blockers[b] || es[i] == Unblock(b))
  {
    assert i + 1 < |states|;
    hide InvOut, Run, Step, Before, Enabled;
    RunStep(states, es, i);
    var newcomer := StepTurns(states[i], es[i], b);
    if es[i] != Unblock(b) {
      SecondStays(states[i].blockers[b], Dropped(states[i], es[i], b), u, t);
      StaysTurned(states[i], states[i + 1], b, Dropped(states[i], es[i], b), newcomer, t);
    }
  }

  lemma SecondStays(list: seq<Tid>, d: nat, u: Tid, t: Tid)
    requires Before(list, u, t) && d <= 1
    ensures d <= |list| && t in list[d..]
  {
    var p, q :| 0 <= p < q < |list| && list[p] == u && list[q] == t;
    assert list[d..][q - d] == t;
  }

  /** First in, first out: a thread that joins a list behind one with the same deadline stays behind it as long as that
      one waits. */
  lemma FirstInFirstOut(states: seq<State>, es: seq<Event>, i: nat, j: nat, b: Bid, u: Tid, t: Tid)
    requires Run(states, es) && i < j < |states| && Waits(states, i, j, b, u)
    requires t !in states[i].blockers[b] && t in states[i + 1].blockers[b]
    requires u in states[i].threads && t in states[i + 1].threads
    requires states[i].threads[u].deadline == states[i + 1].threads[t].deadline
    ensures Before(states[j].blockers[b], u, t)
  {
    hide InvOut, Run, Step, Turned, Before;
    RunStep(states, es, i);
    var newcomer := StepTurns(states[i], es[i], b);
    TurnedJoins(states[i], states[i + 1], b, Dropped(states[i], es[i], b), newcomer, u, t);
    OrderKept(states, es, i + 1, j, b, u, t);
  }

  lemma EarlierIsBefore(s: State, b: Bid, u: Tid, t: Tid)
    requires Inv(s) && b < |s.blockers| && u in s.blockers[b] && t in s.blockers[b] && u in s.threads && t in s.threads
    requires s.threads[u].deadline < s.threads[t].deadline
    ensures Before(s.blockers[b], u, t)
  {
    assert ListOk(s.threads, b, s.blockers[b]);
    hide InvOut;
    EarlierInList(s.blockers[b], s.threads, b, u, t);
  }

  lemma EarlierInList(list: seq<Tid>, threads: map<Tid, Thread>, b: Bid, u: Tid, t: Tid)
    requires ListOk(threads, b, list) && u in list && t in list && threads[u].deadline < threads[t].deadline
    ensures Before(list, u, t)
  {
    hide ListOk;
    var p: nat :| p < |list| && list[p] == u;
    var q: nat :| q < |list| && list[q] == t;
    if q < p { SortedPair(list, threads, b, q, p); }
    assert p < q;
  }

  lemma SortedPair(list: seq<Tid>, threads: map<Tid, Thread>, b: Bid, p: nat, q: nat)
    requires ListOk(threads, b, list) && p <= q < |list|
    ensures list[p] in threads && list[q] in threads && threads[list[p]].deadline <= threads[list[q]].deadline
  {
  }

  /** Deadline order: as long as a thread with an earlier deadline waits, no thread with a later one times out. */
  lemma DeadlineOrder(states: seq<State>, es: seq<Event>, i: nat, j: nat, b: Bid, u: Tid, t: Tid)
    requires Run(states, es) && i <= j < |states| && Waits(states, i, j, b, u) && t in states[i].blockers[b]
    requires u in states[i].threads && t in states[i].threads
    requires states[i].threads[u].deadline < states[i].threads[t].deadline
    ensures t in states[j].blockers[b] && Before(states[j].blockers[b], u, t)
  {
    RunKeeps(states, es, i);
    EarlierIsBefore(states[i], b, u, t);
    hide InvOut;
    OrderKept(states, es, i, j, b, u, t);
  }

  // ---------- Waiting for ever ----------

  /** The clock is a 64-bit counter. */
  predicate InTime(e: Event) { e.Tick? ==> e.clock.pass < TIMES }

  /** One event leaves a thread that waits for ever in its list, unless it unblocks the list. */
  lemma NeverStays(s: State, e: Event, b: Bid, t: Tid)
    requires Inv(s) && Enabled(s, e) && InTime(e) && b < |s.blockers| && t in s.blockers[b] && e != Unblock(b)
    requires t in s.threads && s.threads[t].deadline == NEVER
    ensures var r := Step(s, e);
      b < |r.blockers| && t in r.blockers[b] && t in r.threads && r.threads[t] == s.threads[t]
  {
    hide InvOut, Step;
    var newcomer := StepTurns(s, e, b);
    NeverDropped(s, e, b, t);
    StaysTurned(s, Step(s, e), b, Dropped(s, e, b), newcomer, t);
  }

  lemma StaysTurned(s: State, r: State, b: Bid, d: nat, newcomer: Option<Tid>, t: Tid)
    requires Turned(s, r, b, d, newcomer) && t in s.blockers[b][d..]
    ensures t in r.blockers[b] && t in r.threads && r.threads[t] == s.threads[t]
  {
    if newcomer.Some? { InsertMembers(s.blockers[b][d..], r.threads, newcomer.value); }
  }

  lemma NeverDropped(s: State, e: Event, b: Bid, t: Tid)
    requires Inv(s) && InTime(e) && b < |s.blockers| && t in s.blockers[b] && e != Unblock(b)
    requires t in s.threads && s.threads[t].deadline == NEVER
    ensures Dropped(s, e, b) <= |s.blockers[b]| && t in s.blockers[b][Dropped(s, e, b)..]
  {
    hide InvOut;
    var list, d := s.blockers[b], Dropped(s, e, b);
    var k :| 0 <= k < |list| && list[k] == t;
    assert d == 0 || (d == 1 && list[0] != t);
    assert list[d..][k - d] == t;
  }

  /** A thread that waits for ever waits until its list is unblocked, over every run, and is not changed by waiting. */
  lemma {:induction false} NeverTimesOut(states: seq<State>, es: seq<Event>, i: nat, j: nat, b: Bid, t: Tid)
    requires Run(states, es) && i <= j < |states| && b < |states[i].blockers| && t in states[i].blockers[b]
    requires t in states[i].threads && states[i].threads[t].deadline == NEVER
    requires forall k :: i <= k < j ==> InTime(es[k]) && es[k] != Unblock(b)
    ensures b < |states[j].blockers| && t in states[j].blockers[b]
    ensures t in states[j].threads && states[j].threads[t] == states[i].threads[t]
    decreases j - i
  {
    hide InvOut, Run, Step, Enabled;
    if i < j {
      NeverTimesOut(states, es, i, j - 1, b, t);
      RunStep(states, es, j - 1);
      NeverStays(states[j - 1], es[j - 1], b, t);
    }
  }

  /** And when its list is unblocked, it wakes with the result Norm: no run gives it the result Timeout. */
  lemma NeverWakesNormally(states: seq<State>, es: seq<Event>, i: nat, j: nat, b: Bid, t: Tid)
    requires Run(states, es) && i <= j < |es| && b < |states[i].blockers| && t in states[i].blockers[b]
    requires t in states[i].threads && states[i].threads[t].deadline == NEVER
    requires (forall k :: i <= k < j ==> InTime(es[k]) && es[k] != Unblock(b)) && es[j] == Unblock(b)
    ensures t in states[j + 1].threads && states[j + 1].threads[t].result == Norm
  {
    assert j + 1 < |states|;
    hide InvOut, Run, UnblockAll;
    NeverTimesOut(states, es, i, j, b, t);
    RunStep(states, es, j);
    UnblockWakes(states[j], b, t);
  }
}
