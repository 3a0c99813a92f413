/**
 Ring buffer and pipe.  The ring copies in at most two pieces and wraps; the pipe shares one ring between a
 reading and a writing file, each of which is closed once.
 */
module Pipe {
  import opened Options

  const RING_SIZE: nat := 100

  type Byte = bv8

  // ---------- The ring ----------

  /** The length bytes of a ring from index start on. */
  function Span(buffer: seq<Byte>, start: nat, length: nat): (s: seq<Byte>)
    requires |buffer| == RING_SIZE
    ensures |s| == length
  {
    seq(length, k => buffer[(start + k) % RING_SIZE])
  }

  class Ring {
    const buffer: array<Byte>
    var readIndex: nat
    var writeIndex: nat
    var dataLength: nat

    ghost predicate Valid()
      reads this
    {
      buffer.Length == RING_SIZE && readIndex < RING_SIZE && dataLength <= RING_SIZE
      && writeIndex == (readIndex + dataLength) % RING_SIZE
    }

    /** The bytes written and not yet read, oldest first. */
    ghost function Contents(): seq<Byte>
      requires Valid()
      reads this, buffer
    {
      Span(buffer[..], readIndex, dataLength)
    }

    constructor ()
      ensures Valid() && Contents() == [] && fresh(buffer)
    {
      buffer := new Byte[RING_SIZE](i => 0);
      readIndex, writeIndex, dataLength := 0, 0, 0;
    }

    /** ring_write: false, and no change, if the bytes do not all fit. */
    method Write(data: seq<Byte>) returns (ok: bool)
      requires Valid()
      modifies this, buffer
      ensures Valid() && (ok <==> |data| <= RING_SIZE - |old(Contents())|)
      ensures Contents() == if ok then old(Contents()) + data else old(Contents())
    {
      var count := |data|;
      if count > RING_SIZE - dataLength { return false; }
      ghost var before, start, length := buffer[..], readIndex, dataLength;
      CopyIn(data);
      AppendSpan(before, buffer[..], start, length, data);
      hide Written, Span;
      WrapAdd(start + length, count);
      writeIndex := (writeIndex + count) % RING_SIZE;
      dataLength := dataLength + count;
      return true;
    }

    /** The copy of ring_write: up to the end of the buffer, then from its beginning. */
    method CopyIn(data: seq<Byte>)
      requires buffer.Length == RING_SIZE && writeIndex < RING_SIZE && |data| <= RING_SIZE
      modifies buffer
      ensures Written(old(buffer[..]), buffer[..], writeIndex, data)
    {
      var count, upper := |data|, RING_SIZE - writeIndex;
      if count < upper {
        forall i | 0 <= i < count { buffer[writeIndex + i] := data[i]; }
      } else {
        forall i | 0 <= i < upper { buffer[writeIndex + i] := data[i]; }
        forall i | 0 <= i < count - upper { buffer[i] := data[upper + i]; }
      }
    }

    /** ring_read: None, and no change, if fewer bytes are there. */
    method Read(count: nat) returns (r: Option<seq<Byte>>)
      requires Valid()
      modifies this
      ensures Valid() && (r.Some? <==> count <= |old(Contents())|)
      ensures r.Some? ==> r.value == old(Contents())[..count] && Contents() == old(Contents())[count..]
      ensures r.None? ==> Contents() == old(Contents())
    {
      if count > dataLength { return None; }
      hide Span;
      var data := CopyOut(count);
      SplitSpan(buffer[..], readIndex, dataLength, count);
      WrapSplit(readIndex, dataLength, count);
      readIndex := (readIndex + count) % RING_SIZE;
      dataLength := dataLength - count;
      return Some(data);
    }

    /** The copy of ring_read, in the same two pieces. */
    method CopyOut(count: nat) returns (data: seq<Byte>)
      requires buffer.Length == RING_SIZE && readIndex < RING_SIZE && count <= RING_SIZE
      ensures data == Span(buffer[..], readIndex, count)
    {
      hide Span;
      TwoPieces(buffer[..], readIndex, count);
      var upper := RING_SIZE - readIndex;
      if count < upper {
        data := buffer[readIndex..readIndex + count];
        assert data == buffer[..][readIndex..readIndex + count];
      } else {
        data := buffer[readIndex..] + buffer[..count - upper];
        assert data == buffer[..][readIndex..] + buffer[..][..count - upper];
      }
    }
  }

  /** after is before with data stored from index w on, wrapping at the end. */
  ghost predicate Written(before: seq<Byte>, after: seq<Byte>, w: nat, data: seq<Byte>) {
    |before| == RING_SIZE && |after| == RING_SIZE && w < RING_SIZE && |data| <= RING_SIZE &&
    forall j :: 0 <= j < RING_SIZE ==>
      after[j] == (if w <= j < w + |data| then data[j - w]
                   else if j + RING_SIZE < w + |data| then data[j + RING_SIZE - w] else before[j])
  }

  lemma AppendSpan(before: seq<Byte>, after: seq<Byte>, start: nat, length: nat, data: seq<Byte>)
    requires start < RING_SIZE && length + |data| <= RING_SIZE
    requires Written(before, after, (start + length) % RING_SIZE, data)
    ensures Span(after, start, length + |data|) == Span(before, start, length) + data
  {
    forall k | 0 <= k < length + |data|
      ensures Span(after, start, length + |data|)[k] == (Span(before, start, length) + data)[k]
    {
      AppendAt(before, after, start, length, data, k);
    }
  }

  lemma WrapAdd(n: nat, k: nat)
    ensures (n % RING_SIZE + k) % RING_SIZE == (n + k) % RING_SIZE
  {
  }

  lemma WrapSplit(start: nat, length: nat, count: nat)
    requires count <= length
    ensures ((start + count) % RING_SIZE + (length - count)) % RING_SIZE == (start + length) % RING_SIZE
  {
    WrapAdd(start + count, length - count);
  }

  lemma Wrap(n: nat)
    requires n < 2 * RING_SIZE
    ensures n % RING_SIZE == if n < RING_SIZE then n else n - RING_SIZE
  {
  }

  lemma AppendAt(before: seq<Byte>, after: seq<Byte>, start: nat, length: nat, data: seq<Byte>, k: nat)
    requires start < RING_SIZE && length + |data| <= RING_SIZE && k < length + |data|
    requires Written(before, after, (start + length) % RING_SIZE, data)
    ensures after[(start + k) % RING_SIZE] == if k < length then before[(start + k) % RING_SIZE] else data[k - length]
  {
    Wrap(start + length);
    Wrap(start + k);
    var w, j := (start + length) % RING_SIZE, (start + k) % RING_SIZE;
    assert after[j] == (if w <= j < w + |data| then data[j - w]
                        else if j + RING_SIZE < w + |data| then data[j + RING_SIZE - w] else before[j]);
  }

  lemma TwoPieces(buffer: seq<Byte>, start: nat, count: nat)
    requires |buffer| == RING_SIZE && start < RING_SIZE && count <= RING_SIZE
    ensures Span(buffer, start, count) ==
      if start + count < RING_SIZE then buffer[start..start + count]
      else buffer[start..] + buffer[..count - (RING_SIZE - start)]
  {
    forall k | 0 <= k < count
      ensures var i := if start + k < RING_SIZE then start + k else start + k - RING_SIZE;
              Span(buffer, start, count)[k] == buffer[i]
    {
      Wrap(start + k);
    }
  }

  lemma SplitSpan(buffer: seq<Byte>, start: nat, length: nat, count: nat)
    requires |buffer| == RING_SIZE && start < RING_SIZE && count <= length <= RING_SIZE
    ensures Span(buffer, start, length)[..count] == Span(buffer, start, count)
    ensures Span(buffer, start, length)[count..] == Span(buffer, (start + count) % RING_SIZE, length - count)
  {
    forall k | 0 <= k < length - count
      ensures Span(buffer, start, length)[count..][k] == Span(buffer, (start + count) % RING_SIZE, length - count)[k]
    {
      WrapAdd(start + count, k);
      assert start + count + k == start + (count + k);
    }
  }

  // ---------- The pipe as a protocol ----------

  type Tid = nat

  datatype End = ReadEnd | WriteEnd

  function Other(end: End): End { if end.ReadEnd? then WriteEnd else ReadEnd }

  /** What a thread asks of the pipe. */
  datatype Call = Reading(count: nat) | Writing(data: seq<Byte>)

  function EndOf(call: Call): End { if call.Reading? then ReadEnd else WriteEnd }

  /** How far a call is: in front of the lock, for the first time or after it was woken; past a test that failed but not
      yet in the list of the blocker; in that list; through, with sched_unblock still to come; or done with the pipe,
      with its handle still to give back. */
  datatype Phase = Entering | Drowsy | Asleep | Leaving | Done

  datatype Use = Use(call: Call, phase: Phase)

  /** The file at one end: its references, and whether its cleanup has run. */
  datatype Port = Port(refs: nat, closed: bool)

  /** The shared state: the bytes in the ring, the files, how often it was freed, and the calls in progress. */
  datatype State = State(queue: seq<Byte>, read: Port, write: Port, freed: nat, calls: map<Tid, Use>)
  {
    function At(end: End): Port { if end.ReadEnd? then read else write }

    function Put(end: End, p: Port): State { if end.ReadEnd? then this.(read := p) else this.(write := p) }

    function To(t: Tid, phase: Phase): State
      requires t in calls
    {
      this.(calls := calls[t := calls[t].(phase := phase)])
    }

    predicate In(t: Tid, phase: Phase) { t in calls && calls[t].phase == phase }

    /** The calls that use an end; each holds a handle of its file. */
    function Users(end: End): set<Tid> { set t | t in calls && EndOf(calls[t].call) == end }
  }

  datatype Event =
    Share(end: End) | Drop(end: End) | Begin(t: Tid, call: Call) | Try(t: Tid) | Sleep(t: Tid) | Leave(t: Tid)
    | Return(t: Tid)

  datatype Reply = Bytes(data: seq<Byte>) | Accepted | Invalid | BrokenPipe | Waiting

  const OPEN := State([], Port(1, false), Port(1, false), 0, map[])

  /** A file is referred to only through a handle, and a call gives its own handle back when it returns. */
  predicate Allowed(s: State, e: Event) {
    match e
    case Share(end) => s.At(end).refs > 0
    case Drop(end) => s.At(end).refs > |s.Users(end)|
    case Begin(t, call) => t !in s.calls && s.At(EndOf(call)).refs > 0
    case Try(t) => s.In(t, Entering)
    case Sleep(t) => s.In(t, Drowsy)
    case Leave(t) => s.In(t, Leaving)
    case Return(t) => s.In(t, Done)
  }

  /** What a call does to the ring while it holds the lock. */
  function Transfer(s: State, call: Call): (State, Reply) {
    match call
    case Reading(count) =>
      if count >= RING_SIZE then (s, Invalid)
      else if |s.queue| < count && !s.write.closed then (s, Waiting)
      else
        var n := if |s.queue| < count then |s.queue| else count;
        (s.(queue := s.queue[n..]), Bytes(s.queue[..n]))
    case Writing(data) =>
      if |data| >= RING_SIZE then (s, Invalid)
      else if s.read.closed then (s, BrokenPipe)
      else if RING_SIZE < |s.queue| + |data| then (s, Waiting)
      else (s.(queue := s.queue + data), Accepted)
  }

  function NextPhase(reply: Reply): Phase {
    match reply
    case Waiting => Drowsy
    case Invalid => Done
    case _ => Leaving
  }

  function Attempt(s: State, t: Tid): (State, Reply)
    requires t in s.calls
  {
    var (r, reply) := Transfer(s, s.calls[t].call);
    (r.(calls := s.calls[t := s.calls[t].(phase := NextPhase(reply))]), reply)
  }

  /** sched_unblock of the pipe's blocker. */
  function Wake(s: State): State {
    s.(calls := map t | t in s.calls :: if s.calls[t].phase.Asleep? then s.calls[t].(phase := Entering) else s.calls[t])
  }

  /** The cleanup of a file: the second one frees the shared state.  It wakes nobody. */
  function Cleanup(s: State, end: End): State {
    var r := s.Put(end, s.At(end).(closed := true));
    if s.At(Other(end)).closed then r.(freed := s.freed + 1) else r
  }

  /** file_deref: the last one runs the cleanup. */
  function Deref(s: State, end: End): State {
    if s.At(end).refs <= 1 then Cleanup(s.Put(end, s.At(end).(refs := 0)), end)
    else s.Put(end, s.At(end).(refs := s.At(end).refs - 1))
  }

  function Ref(s: State, end: End): State { s.Put(end, s.At(end).(refs := s.At(end).refs + 1)) }

  function Step(s: State, e: Event): State
    requires Allowed(s, e)
  {
    match e
    case Share(end) => Ref(s, end)
    case Drop(end) => Deref(s, end)
    case Begin(t, call) => Ref(s.(calls := s.calls[t := Use(call, Entering)]), EndOf(call))
    case Try(t) => Attempt(s, t).0
    case Sleep(t) => s.To(t, Asleep)
    case Leave(t) => Wake(s).To(t, Done)
    case Return(t) => Deref(s.(calls := s.calls - {t}), EndOf(s.calls[t].call))
  }

  /** The states before and after each event of a run. */
  predicate Run(states: seq<State>, es: seq<Event>) {
    && |states| == |es| + 1 && states[0] == OPEN
    && forall i :: 0 <= i < |es| ==> Allowed(states[i], es[i]) && states[i + 1] == Step(states[i], es[i])
  }

  /** An end is closed exactly when its file has no reference, and the calls on it have one each. */
  predicate PortOk(s: State, end: End) {
    (s.At(end).closed <==> s.At(end).refs == 0) && |s.Users(end)| <= s.At(end).refs
  }

  /** The ring does not overflow, and the state is freed with the second end. */
  predicate Inv(s: State) {
    && |s.queue| <= RING_SIZE && s.freed == (if s.read.closed && s.write.closed then 1 else 0)
    && PortOk(s, ReadEnd) && PortOk(s, WriteEnd)
  }

  /** The calls that use an end depend on no phase. */
  lemma SameUsers(s: State, r: State)
    requires r.calls.Keys == s.calls.Keys && forall t :: t in s.calls ==> r.calls[t].call == s.calls[t].call
    ensures r.Users(ReadEnd) == s.Users(ReadEnd) && r.Users(WriteEnd) == s.Users(WriteEnd)
  {
  }

  /** A transfer changes nothing but the ring: a read takes the oldest bytes from it and hands over just these, as many
      as asked for, or all there are once the writer is gone; a write adds its bytes behind. */
  lemma TransferMoves(s: State, call: Call)
    requires |s.queue| <= RING_SIZE
    ensures var (r, reply) := Transfer(s, call);
            && |r.queue| <= RING_SIZE && r == s.(queue := r.queue)
            && match reply
               case Bytes(d) =>
                 && call.Reading? && d + r.queue == s.queue && |d| <= call.count
                 && (|d| < call.count ==> r.queue == [] && s.write.closed)
               case Accepted => call.Writing? && r.queue == s.queue + call.data
               case _ => r == s
  {
  }

  lemma TransferKeeps(s: State, call: Call)
    requires Inv(s)
    ensures Inv(Transfer(s, call).0)
  {
    TransferMoves(s, call);
    hide Transfer;
    SameUsers(s, Transfer(s, call).0);
  }

  /** The same calls, in whatever phase, use the same ends. */
  lemma SameCalls(s: State, r: State)
    requires Inv(s) && r.calls.Keys == s.calls.Keys && r == s.(calls := r.calls)
    requires forall t :: t in s.calls ==> r.calls[t].call == s.calls[t].call
    ensures Inv(r)
  {
    SameUsers(s, r);
  }

  lemma OneMore(s: State, r: State, t: Tid, call: Call, end: End)
    requires t !in s.calls && r.calls == s.calls[t := Use(call, Entering)]
    ensures |r.Users(end)| == |s.Users(end)| + if end == EndOf(call) then 1 else 0
  {
    assert r.Users(end) == s.Users(end) + if end == EndOf(call) then {t} else {};
  }

  lemma BeginKeeps(s: State, t: Tid, call: Call)
    requires Inv(s) && t !in s.calls && s.At(EndOf(call)).refs > 0
    ensures Inv(Step(s, Begin(t, call)))
  {
    var r := Step(s, Begin(t, call));
    OneMore(s, r, t, call, ReadEnd);
    OneMore(s, r, t, call, WriteEnd);
  }

  lemma DerefKeeps(s: State, end: End)
    requires |s.queue| <= RING_SIZE && s.freed == (if s.read.closed && s.write.closed then 1 else 0)
    requires !s.At(end).closed && |s.Users(end)| < s.At(end).refs && PortOk(s, Other(end))
    ensures Inv(Deref(s, end))
  {
    SameUsers(s, Deref(s, end));
  }

  lemma ReturnKeeps(s: State, t: Tid)
    requires Inv(s) && s.In(t, Done)
    ensures Inv(Step(s, Return(t)))
  {
    var end := EndOf(s.calls[t].call);
    var m := s.(calls := s.calls - {t});
    assert s.Users(end) == m.Users(end) + {t} && m.Users(Other(end)) == s.Users(Other(end));
    DerefKeeps(m, end);
  }

  lemma StepKeeps(s: State, e: Event)
    requires Inv(s) && Allowed(s, e)
    ensures Inv(Step(s, e))
  {
    match e
    case Share(end) => SameUsers(s, Ref(s, end));
    case Drop(end) => DerefKeeps(s, end);
    case Begin(t, call) => BeginKeeps(s, t, call);
    case Try(t) =>
      TransferKeeps(s, s.calls[t].call);
      TransferMoves(s, s.calls[t].call);
      hide Transfer;
      SameCalls(Transfer(s, s.calls[t].call).0, Step(s, e));
    case Sleep(t) => SameCalls(s, Step(s, e));
    case Leave(t) => SameCalls(s, Step(s, e));
    case Return(t) => ReturnKeeps(s, t);
  }

  lemma {:induction false} RunKeeps(states: seq<State>, es: seq<Event>, i: nat)
    requires Run(states, es) && i < |states|
    ensures Inv(states[i])
  {
    if i > 0 {
      RunKeeps(states, es, i - 1);
      StepKeeps(states[i - 1], es[i - 1]);
    } else {
      assert OPEN.Users(ReadEnd) == {} && OPEN.Users(WriteEnd) == {};
    }
  }

  /** The bytes that an event hands to a reader, and those that it accepts from a writer. */
  function ReadBy(s: State, e: Event): seq<Byte>
    requires Allowed(s, e)
  {
    if e.Try? && Attempt(s, e.t).1.Bytes? then Attempt(s, e.t).1.data else []
  }

  function WrittenBy(s: State, e: Event): seq<Byte>
    requires Allowed(s, e)
  {
    if e.Try? && Attempt(s, e.t).1.Accepted? && s.calls[e.t].call.Writing? then s.calls[e.t].call.data else []
  }

  /** All bytes that readers got, and all that writers gave, up to the i-th event of a run. */
  function Received(states: seq<State>, es: seq<Event>, i: nat): seq<Byte>
    requires Run(states, es) && i < |states|
  {
    if i == 0 then [] else Received(states, es, i - 1) + ReadBy(states[i - 1], es[i - 1])
  }

  function Sent(states: seq<State>, es: seq<Event>, i: nat): seq<Byte>
    requires Run(states, es) && i < |states|
  {
    if i == 0 then [] else Sent(states, es, i - 1) + WrittenBy(states[i - 1], es[i - 1])
  }

  /** No event makes a byte up, loses one, or changes their order. */
  lemma BytesConserved(s: State, e: Event)
    requires Inv(s) && Allowed(s, e)
    ensures ReadBy(s, e) + Step(s, e).queue == s.queue + WrittenBy(s, e)
  {
    if e.Try? { TransferMoves(s, s.calls[e.t].call); }
    hide Transfer, Wake, Inv;
  }

  /** In every interleaving of reads, writes and closes what the readers got, followed by what is in the ring, is what
      the writers gave. */
  lemma {:induction false} PipeIsFifo(states: seq<State>, es: seq<Event>, i: nat)
    requires Run(states, es) && i < |states|
    ensures Received(states, es, i) + states[i].queue == Sent(states, es, i)
    ensures Received(states, es, i) <= Sent(states, es, i)
  {
    if i > 0 {
      PipeIsFifo(states, es, i - 1);
      RunKeeps(states, es, i - 1);
      var s, e := states[i - 1], es[i - 1];
      BytesConserved(s, e);
      Regroup(Received(states, es, i - 1), ReadBy(s, e), states[i].queue, s.queue, WrittenBy(s, e));
      hide Step, ReadBy, WrittenBy, Inv, Allowed;
    }
  }

  lemma Regroup(got: seq<Byte>, read: seq<Byte>, rest: seq<Byte>, queue: seq<Byte>, written: seq<Byte>)
    requires read + rest == queue + written
    ensures got + read + rest == got + queue + written
  {
    assert got + read + rest == got + (read + rest);
  }

  /** The shared state is freed exactly once, when neither file has a handle any more. */
  lemma FreedOnce(states: seq<State>, es: seq<Event>, i: nat)
    requires Run(states, es) && i < |states|
    ensures states[i].freed == if states[i].read.refs == 0 && states[i].write.refs == 0 then 1 else 0
  {
    RunKeeps(states, es, i);
  }

  lemma NoUsers(s: State)
    requires s.Users(ReadEnd) == {} && s.Users(WriteEnd) == {}
    ensures s.calls == map[]
  {
    assert forall t :: t in s.calls ==> t in s.Users(ReadEnd) + s.Users(WriteEnd);
  }

  lemma NothingLeft(s: State, e: Event)
    requires s.calls == map[] && s.read.refs == 0 && s.write.refs == 0
    ensures !Allowed(s, e)
  {
  }

  /** When the shared state is freed no call is in progress, so that the list of its blocker is empty; and nothing
      happens to the pipe afterwards. */
  lemma FreedWithoutWaiters(states: seq<State>, es: seq<Event>, i: nat)
    requires Run(states, es) && i < |states| && states[i].freed > 0
    ensures states[i].calls == map[] && i == |es|
  {
    RunKeeps(states, es, i);
    var s := states[i];
    NoUsers(s);
    if i < |es| { NothingLeft(s, es[i]); }
  }

  // ---------- Who wakes whom ----------

  /** The call would not have to wait. */
  predicate Ready(s: State, call: Call) { !Transfer(s, call).1.Waiting? }

  /** Some call has changed the ring, or found the reader gone, and has yet to wake the sleepers. */
  predicate WakerComes(s: State) { exists t :: t in s.calls && s.In(t, Leaving) }

  /** A sleeper is woken by a call that leaves, and by nothing else: closing an end wakes nobody. */
  lemma WokenIff(s: State, e: Event, t: Tid)
    requires Allowed(s, e) && s.In(t, Asleep)
    ensures t in Step(s, e).calls && Step(s, e).calls[t].call == s.calls[t].call
    ensures Step(s, e).calls[t].phase == if e.Leave? then Entering else Asleep
  {
  }

  /** The event that let a call that is ready sleep on: it went to sleep although it was ready, or an end was closed
      while it slept. */
  predicate Missed(s: State, e: Event, t: Tid)
    requires Allowed(s, e)
  {
    if e == Sleep(t) then s.In(t, Drowsy) && Ready(s, s.calls[t].call)
    else s.In(t, Asleep) && (Step(s, e).read.closed != s.read.closed || Step(s, e).write.closed != s.write.closed)
  }

  lemma WakerStays(s: State, e: Event)
    requires Allowed(s, e) && !e.Leave? && WakerComes(s)
    ensures WakerComes(Step(s, e))
  {
    hide Transfer;
    var u :| u in s.calls && s.In(u, Leaving);
    assert Step(s, e).In(u, Leaving);
  }

  lemma TryMovesNothing(s: State, t: Tid)
    requires Inv(s) && t in s.calls && !WakerComes(Attempt(s, t).0)
    ensures Attempt(s, t).0 == s.(calls := Attempt(s, t).0.calls)
  {
    TransferMoves(s, s.calls[t].call);
    hide Transfer;
    assert !Attempt(s, t).0.In(t, Leaving);
  }

  lemma ReadyDepends(s: State, r: State, call: Call)
    requires r.queue == s.queue && r.read.closed == s.read.closed && r.write.closed == s.write.closed
    ensures Ready(r, call) == Ready(s, call)
  {
  }

  lemma ReadyKept(s: State, e: Event, t: Tid)
    requires Inv(s) && Allowed(s, e) && Step(s, e).In(t, Asleep) && !WakerComes(Step(s, e)) && !Missed(s, e, t)
    requires Ready(Step(s, e), Step(s, e).calls[t].call)
    ensures s.In(t, Asleep) && Ready(s, s.calls[t].call) && !WakerComes(s)
  {
    hide Ready, Transfer;
    if !e.Leave? && WakerComes(s) { WakerStays(s, e); }
    if e.Try? { TryMovesNothing(s, e.t); }
    hide WakerComes, Inv;
    ReadyDepends(s, Step(s, e), Step(s, e).calls[t].call);
  }

  /** Over every run: a call that is ready, asleep, and without anyone on the way to wake it has missed its chance in
      one of these two ways, and slept ever since. */
  lemma {:induction false} Overslept(states: seq<State>, es: seq<Event>, i: nat, t: Tid) returns (k: nat)
    requires Run(states, es) && i < |states| && states[i].In(t, Asleep)
    requires Ready(states[i], states[i].calls[t].call) && !WakerComes(states[i])
    ensures k < i && Missed(states[k], es[k], t)
    ensures forall j :: k < j <= i ==> states[j].In(t, Asleep)
  {
    assert i > 0;
    RunKeeps(states, es, i - 1);
    hide Step, Ready, WakerComes, Missed, Inv;
    if Missed(states[i - 1], es[i - 1], t) { return i - 1; }
    ReadyKept(states[i - 1], es[i - 1], t);
    k := Overslept(states, es, i - 1, t);
  }

  /** Without a call that leaves it sleeps on. */
  lemma {:induction false} SleepsOn(states: seq<State>, es: seq<Event>, i: nat, j: nat, t: Tid)
    requires Run(states, es) && i <= j < |states| && states[i].In(t, Asleep)
    requires forall k :: i <= k < j ==> !es[k].Leave?
    ensures states[j].In(t, Asleep) && states[j].calls[t].call == states[i].calls[t].call
    decreases j
  {
    if i < j {
      SleepsOn(states, es, i, j - 1, t);
      WokenIff(states[j - 1], es[j - 1], t);
    }
  }

  /** A reader finds no bytes, and before it sleeps a writer brings them. */
  lemma WriteInBetween(r: Tid, w: Tid, count: nat, data: seq<Byte>) returns (states: seq<State>, es: seq<Event>)
    requires r != w && 0 < count <= |data| < RING_SIZE
    ensures Run(states, es) && |es| == 4
    ensures states[4] == State(data, Port(2, false), Port(2, false), 0,
                               map[r := Use(Reading(count), Drowsy), w := Use(Writing(data), Leaving)])
  {
    es := [Begin(r, Reading(count)), Try(r), Begin(w, Writing(data)), Try(w)];
    var s1 := Step(OPEN, es[0]);
    var s2 := Step(s1, es[1]);
    var s3 := Step(s2, es[2]);
    states := [OPEN, s1, s2, s3, Step(s3, es[3])];
  }

  /** Both ways happen.  A write that comes between the test and the sleep of a reader: the reader sleeps although its
      bytes are there, and no other call is in progress. */
  lemma MissedWrite(r: Tid, w: Tid, count: nat, data: seq<Byte>) returns (states: seq<State>, es: seq<Event>)
    requires r != w && 0 < count <= |data| < RING_SIZE
    ensures Run(states, es) && var s := states[|es|];
            s.queue == data && s.calls == map[r := Use(Reading(count), Asleep)] && Ready(s, Reading(count))
  {
    states, es := WriteInBetween(r, w, count, data);
    var s5 := Step(states[4], Leave(w));
    var s6 := Step(s5, Return(w));
    states, es := states + [s5, s6, Step(s6, Sleep(r))], es + [Leave(w), Return(w), Sleep(r)];
  }

  /** And a writer that closes while the reader sleeps. */
  lemma MissedClose(r: Tid, count: nat) returns (states: seq<State>, es: seq<Event>)
    requires 0 < count < RING_SIZE
    ensures Run(states, es) && var s := states[|es|];
            s.write.closed && s.calls == map[r := Use(Reading(count), Asleep)] && Ready(s, Reading(count))
  {
    es := [Begin(r, Reading(count)), Try(r), Sleep(r), Drop(WriteEnd)];
    var s1 := Step(OPEN, es[0]);
    var s2 := Step(s1, es[1]);
    var s3 := Step(s2, es[2]);
    assert s3.Users(WriteEnd) == {};
    states := [OPEN, s1, s2, s3, Step(s3, es[3])];
  }

  /** Once the writer is gone a reader never waits, and reading on hands out everything that is left. */
  lemma {:induction false} DrainAfterClose(s: State, count: nat, k: nat)
    requires Inv(s) && s.write.closed && 0 < count < RING_SIZE && |s.queue| <= k * count
    ensures Transfer(s, Reading(count)).1.Bytes? && ReadAll(s, count, k) == s.queue
    decreases k
  {
    TransferMoves(s, Reading(count));
    if k > 0 {
      TransferKeeps(s, Reading(count));
      assert (k - 1) * count == k * count - count;
      DrainAfterClose(Transfer(s, Reading(count)).0, count, k - 1);
    }
  }

  /** What k reads of count bytes each hand out, one after the other. */
  function ReadAll(s: State, count: nat, k: nat): seq<Byte>
    decreases k
  {
    if k == 0 then []
    else
      var (r, reply) := Transfer(s, Reading(count));
      (if reply.Bytes? then reply.data else []) + ReadAll(r, count, k - 1)
  }

  // ---------- The pipe's code ----------

  class Shared {
    const ring: Ring
    var readClosed: bool
    var writeClosed: bool
    ghost var readRefs: nat
    ghost var writeRefs: nat
    ghost var freed: nat
    ghost var calls: map<Tid, Use>

    ghost predicate Valid()
      reads this, ring
    {
      ring.Valid()
    }

    ghost function View(): State
      requires Valid()
      reads this, ring, ring.buffer
    {
      State(ring.Contents(), Port(readRefs, readClosed), Port(writeRefs, writeClosed), freed, calls)
    }

    /** pipe_init. */
    constructor ()
      ensures Valid() && View() == OPEN && fresh(ring) && fresh(ring.buffer)
    {
      ring := new Ring();
      readClosed, writeClosed := false, false;
      readRefs, writeRefs, freed, calls := 1, 1, 0, map[];
    }

    /** pipe_read for thread t from taking the lock to giving it back, with or without the bytes. */
    method ReadBytes(ghost t: Tid, count: nat) returns (r: Reply)
      requires Valid() && t in calls && calls[t].call == Reading(count)
      modifies this, ring
      ensures Valid() && (View(), r) == Attempt(old(View()), t)
      ensures r.Invalid? || r.Waiting? || r.Bytes?
      ensures r.Invalid? <==> count >= RING_SIZE
      ensures r.Waiting? <==> count < RING_SIZE && |old(ring.Contents())| < count && !writeClosed
      ensures r.Bytes? ==> r.data + ring.Contents() == old(ring.Contents())
      ensures r.Bytes? ==> |r.data| == if count <= |old(ring.Contents())| then count else |old(ring.Contents())|
      ensures !r.Bytes? ==> ring.Contents() == old(ring.Contents())
      ensures calls[t].phase == if r.Waiting? then Drowsy else if r.Invalid? then Done else Leaving
    {
      if count >= RING_SIZE {
        r := Invalid;
      } else if !(ring.dataLength >= count || writeClosed) {
        r := Waiting;
      } else {
        var n := count;
        if writeClosed && ring.dataLength < n { n := ring.dataLength; }
        var data := ring.Read(n);
        assert data.Some?;
        r := Bytes(data.value);
      }
      calls := calls[t := calls[t].(phase := NextPhase(r))];
    }

    /** pipe_write for thread t, likewise. */
    method WriteBytes(ghost t: Tid, data: seq<Byte>) returns (r: Reply)
      requires Valid() && t in calls && calls[t].call == Writing(data)
      modifies this, ring, ring.buffer
      ensures Valid() && (View(), r) == Attempt(old(View()), t)
      ensures r.Invalid? || r.BrokenPipe? || r.Waiting? || r.Accepted?
      ensures r.Invalid? <==> |data| >= RING_SIZE
      ensures r.BrokenPipe? <==> |data| < RING_SIZE && readClosed
      ensures r.Waiting? <==> |data| < RING_SIZE && !readClosed && RING_SIZE < |old(ring.Contents())| + |data|
      ensures ring.Contents() == old(ring.Contents()) + if r.Accepted? then data else []
      ensures calls[t].phase == if r.Waiting? then Drowsy else if r.Invalid? then Done else Leaving
    {
      if |data| >= RING_SIZE {
        r := Invalid;
      } else if !(RING_SIZE - ring.dataLength >= |data| || readClosed) {
        r := Waiting;
      } else if readClosed {
        r := BrokenPipe;
      } else {
        var ok := ring.Write(data);
        assert ok;
        r := Accepted;
      }
      calls := calls[t := calls[t].(phase := NextPhase(r))];
    }

    /** pipe_read_cleanup. */
    method ReadCleanup()
      requires Valid()
      modifies this
      ensures Valid() && View() == Cleanup(old(View()), ReadEnd)
    {
      readClosed := true;
      if writeClosed { freed := freed + 1; }
    }

    /** pipe_write_cleanup. */
    method WriteCleanup()
      requires Valid()
      modifies this
      ensures Valid() && View() == Cleanup(old(View()), WriteEnd)
    {
      writeClosed := true;
      if readClosed { freed := freed + 1; }
    }
  }
}
