/**
 Reference counts of files and volumes: who holds a file (descriptor slots, and calls in progress) and when it goes.
 */
module FileRefs {
  import opened Options

  const MAX_FD: nat := 64

  type Fid = nat
  type Vid = nat

  datatype File = File(volume: Option<Vid>, ref: nat)

  type Table = seq<Option<Fid>>

  /** files and volumes with their counters, the descriptor table of each process, the handles that calls in
      progress hold on files and on volumes, the files cleaned up so far, and all files there ever were. */
  datatype State = State(
    files: map<Fid, File>, volumes: map<Vid, nat>, tables: seq<Table>,
    borrowed: multiset<Fid>, volumesHeld: multiset<Vid>, cleaned: seq<Fid>, created: set<Fid>)

  // ---------- Counting ----------

  function Slots(t: Table, f: Fid): nat { multiset(t)[Some(f)] }

  function AllSlots(tables: seq<Table>, f: Fid): nat {
    if tables == [] then 0 else Slots(tables[0], f) + AllSlots(tables[1..], f)
  }

  function FilesOn(files: map<Fid, File>, v: Vid): set<Fid> { set f | f in files && files[f].volume == Some(v) }

  function RefOf(files: map<Fid, File>, f: Fid): nat { if f in files then files[f].ref else 0 }

  /** file->ref is the number of slots and handles, and a file is there while it has any. */
  ghost predicate CountsOk(files: map<Fid, File>, tables: seq<Table>, borrowed: multiset<Fid>) {
    && (forall f :: AllSlots(tables, f) + borrowed[f] == RefOf(files, f))
    && (forall f :: f in files ==> files[f].ref > 0)
  }

  /** volume->ref is one for the mount, one per file on it, and one per call in progress that holds it. */
  ghost predicate VolumesOk(files: map<Fid, File>, volumes: map<Vid, nat>, held: multiset<Vid>) {
    && (forall f :: f in files && files[f].volume.Some? ==> files[f].volume.value in volumes)
    && (forall v :: v in volumes ==> volumes[v] == 1 + |FilesOn(files, v)| + held[v])
    && (forall v :: v in held ==> v in volumes)
  }

  /** Every file that there ever was is still there, or was cleaned up, once, and never both. */
  ghost predicate CleanedOk(files: map<Fid, File>, cleaned: seq<Fid>, created: set<Fid>) {
    forall f :: multiset(cleaned)[f] + (if f in files then 1 else 0) == if f in created then 1 else 0
  }

  ghost predicate Inv(s: State) {
    && (forall p :: 0 <= p < |s.tables| ==> |s.tables[p]| == MAX_FD)
    && CountsOk(s.files, s.tables, s.borrowed) && VolumesOk(s.files, s.volumes, s.volumesHeld)
    && CleanedOk(s.files, s.cleaned, s.created)
  }

  lemma {:induction false} SetTable(tables: seq<Table>, p: nat, t: Table, f: Fid)
    requires p < |tables|
    ensures AllSlots(tables[p := t], f) == AllSlots(tables, f) - Slots(tables[p], f) + Slots(t, f)
    ensures AllSlots(tables, f) >= Slots(tables[p], f)
    decreases |tables|
  {
    hide Slots;
    var tables' := tables[p := t];
    if p == 0 {
      assert tables'[1..] == tables[1..];
    } else {
      assert tables'[1..] == tables[1..][p - 1 := t];
      SetTable(tables[1..], p - 1, t, f);
    }
  }

  lemma SetSlotCount(t: Table, fd: nat, x: Option<Fid>, f: Fid)
    requires fd < |t|
    ensures Slots(t[fd := x], f) == Slots(t, f) - (if t[fd] == Some(f) then 1 else 0) + (if x == Some(f) then 1 else 0)
  {
    assert t == t[..fd] + [t[fd]] + t[fd + 1..];
    assert t[fd := x] == t[..fd] + [x] + t[fd + 1..];
  }

  // ---------- What moves a reference ----------

  /** file_ref: one more handle. */
  function AddRef(s: State, f: Fid): State
    requires f in s.files
  {
    s.(files := s.files[f := s.files[f].(ref := s.files[f].ref + 1)], borrowed := s.borrowed + multiset{f})
  }

  /** file_deref: one handle less; the last one cleans the file up and gives its volume back. */
  function DropRef(s: State, f: Fid): State
    requires f in s.files
  {
    var file, rest := s.files[f], s.borrowed - multiset{f};
    if file.ref > 1 then s.(files := s.files[f := file.(ref := file.ref - 1)], borrowed := rest)
    else
      s.(files := s.files - {f}, borrowed := rest, cleaned := s.cleaned + [f],
         volumes := if file.volume.Some? && file.volume.value in s.volumes && s.volumes[file.volume.value] > 0
                    then s.volumes[file.volume.value := s.volumes[file.volume.value] - 1] else s.volumes)
  }

  /** A handle becomes the reference of an empty slot. */
  function IntoSlot(s: State, p: nat, fd: nat, f: Fid): State
    requires p < |s.tables| && fd < |s.tables[p]|
  {
    s.(tables := s.tables[p := s.tables[p][fd := Some(f)]], borrowed := s.borrowed - multiset{f})
  }

  /** The reference of a slot becomes a handle. */
  function OutOfSlot(s: State, p: nat, fd: nat): State
    requires p < |s.tables| && fd < |s.tables[p]| && s.tables[p][fd].Some?
  {
    s.(tables := s.tables[p := s.tables[p][fd := None]], borrowed := s.borrowed + multiset{s.tables[p][fd].value})
  }

  /** file_new: a handle on a new file, which takes over a volume reference if it is on a volume. */
  function NewFile(s: State, f: Fid, volume: Option<Vid>): State {
    s.(files := s.files[f := File(volume, 1)], borrowed := s.borrowed + multiset{f},
       volumesHeld := if volume.Some? then s.volumesHeld - multiset{volume.value} else s.volumesHeld,
       created := s.created + {f})
  }

  lemma SlotIsLive(s: State, p: nat, fd: nat)
    requires Inv(s) && p < |s.tables| && fd < MAX_FD && s.tables[p][fd].Some?
    ensures s.tables[p][fd].value in s.files
  {
    var f := s.tables[p][fd].value;
    SetTable(s.tables, p, s.tables[p], f);
    assert Some(f) in multiset(s.tables[p]);
    assert AllSlots(s.tables, f) + s.borrowed[f] == RefOf(s.files, f);
  }

  lemma BorrowedIsLive(s: State, f: Fid)
    requires Inv(s) && f in s.borrowed
    ensures f in s.files && s.files[f].ref > 0
  {
    assert AllSlots(s.tables, f) + s.borrowed[f] == RefOf(s.files, f);
  }

  /** Changing one file and one handle alike. */
  lemma CountsAfter(files: map<Fid, File>, files': map<Fid, File>, tables: seq<Table>, borrowed: multiset<Fid>,
                    borrowed': multiset<Fid>)
    requires CountsOk(files, tables, borrowed) && forall f :: f in files' ==> files'[f].ref > 0
    requires forall f: Fid :: borrowed'[f] + RefOf(files, f) == borrowed[f] + RefOf(files', f)
    ensures CountsOk(files', tables, borrowed')
  {
    hide RefOf;
    forall f: Fid ensures AllSlots(tables, f) + borrowed'[f] == RefOf(files', f) {
      assert AllSlots(tables, f) + borrowed[f] == RefOf(files, f);
    }
  }

  /** Changing one table and one handle in opposite ways. */
  lemma SlotsAfter(files: map<Fid, File>, tables: seq<Table>, p: nat, fd: nat, x: Option<Fid>,
                   borrowed: multiset<Fid>, borrowed': multiset<Fid>)
    requires CountsOk(files, tables, borrowed) && p < |tables| && fd < |tables[p]|
    requires forall f: Fid ::
      borrowed'[f] + (if x == Some(f) then 1 else 0) == borrowed[f] + (if tables[p][fd] == Some(f) then 1 else 0)
    ensures CountsOk(files, tables[p := tables[p][fd := x]], borrowed')
  {
    hide RefOf, Slots;
    forall f: Fid ensures AllSlots(tables[p := tables[p][fd := x]], f) + borrowed'[f] == RefOf(files, f) {
      assert AllSlots(tables, f) + borrowed[f] == RefOf(files, f);
      SetTable(tables, p, tables[p][fd := x], f);
      SetSlotCount(tables[p], fd, x, f);
    }
  }

  lemma SameVolumes(files: map<Fid, File>, f: Fid, ref: nat, volumes: map<Vid, nat>, held: multiset<Vid>)
    requires VolumesOk(files, volumes, held) && f in files
    ensures VolumesOk(files[f := files[f].(ref := ref)], volumes, held)
  {
    forall v: Vid ensures FilesOn(files[f := files[f].(ref := ref)], v) == FilesOn(files, v) { }
    hide FilesOn;
  }

  lemma AddRefKeeps(s: State, f: Fid)
    requires Inv(s) && f in s.files
    ensures Inv(AddRef(s, f))
  {
    var r := AddRef(s, f);
    CountsAfter(s.files, r.files, s.tables, s.borrowed, r.borrowed);
    SameVolumes(s.files, f, s.files[f].ref + 1, s.volumes, s.volumesHeld);
    hide CountsOk, VolumesOk;
  }

  lemma DropRefKeeps(s: State, f: Fid)
    requires Inv(s) && f in s.borrowed && f in s.files
    ensures Inv(DropRef(s, f))
    ensures f !in DropRef(s, f).files <==> s.files[f].ref == 1
  {
    hide VolumesOk;
    var r := DropRef(s, f);
    RefPositive(s.files, s.tables, s.borrowed);
    hide CountsOk;
    CountsAfter(s.files, r.files, s.tables, s.borrowed, r.borrowed);
    if s.files[f].ref > 1 {
      SameVolumes(s.files, f, s.files[f].ref - 1, s.volumes, s.volumesHeld);
    } else {
      VolumesAfterDrop(s.files, f, s.volumes, s.volumesHeld);
      CleanedAfter(s.files, f, s.cleaned, s.created);
    }
  }

  lemma RefPositive(files: map<Fid, File>, tables: seq<Table>, borrowed: multiset<Fid>)
    requires CountsOk(files, tables, borrowed)
    ensures forall f :: f in files ==> files[f].ref > 0
  {
  }

  lemma CleanedAfter(files: map<Fid, File>, f: Fid, cleaned: seq<Fid>, created: set<Fid>)
    requires CleanedOk(files, cleaned, created) && f in files
    ensures CleanedOk(files - {f}, cleaned + [f], created)
  {
    forall g: Fid
      ensures multiset(cleaned + [f])[g] + (if g in files - {f} then 1 else 0) == if g in created then 1 else 0
    {
      assert multiset(cleaned)[g] + (if g in files then 1 else 0) == if g in created then 1 else 0;
    }
  }

  lemma VolumesAfterDrop(files: map<Fid, File>, f: Fid, volumes: map<Vid, nat>, held: multiset<Vid>)
    requires VolumesOk(files, volumes, held) && f in files
    ensures var w := files[f].volume;
            var dropped := w.Some? && w.value in volumes && volumes[w.value] > 0;
            VolumesOk(files - {f}, if dropped then volumes[w.value := volumes[w.value] - 1] else volumes, held)
  {
    forall v: Vid
      ensures |FilesOn(files - {f}, v)| == |FilesOn(files, v)| - if files[f].volume == Some(v) then 1 else 0
    {
      assert FilesOn(files - {f}, v) == FilesOn(files, v) - {f};
      assert f in FilesOn(files, v) <==> files[f].volume == Some(v);
    }
    hide FilesOn;
  }

  lemma IntoSlotKeeps(s: State, p: nat, fd: nat, f: Fid)
    requires Inv(s) && p < |s.tables| && fd < MAX_FD && s.tables[p][fd] == None && f in s.borrowed
    ensures Inv(IntoSlot(s, p, fd, f))
  {
    SlotsAfter(s.files, s.tables, p, fd, Some(f), s.borrowed, s.borrowed - multiset{f});
    hide CountsOk, VolumesOk, CleanedOk;
  }

  lemma OutOfSlotKeeps(s: State, p: nat, fd: nat)
    requires Inv(s) && p < |s.tables| && fd < MAX_FD && s.tables[p][fd].Some?
    ensures Inv(OutOfSlot(s, p, fd))
  {
    SlotsAfter(s.files, s.tables, p, fd, None, s.borrowed, s.borrowed + multiset{s.tables[p][fd].value});
    hide CountsOk, VolumesOk, CleanedOk;
  }

  lemma NewFileKeeps(s: State, f: Fid, volume: Option<Vid>)
    requires Inv(s) && f !in s.created && (volume.Some? ==> volume.value in s.volumesHeld)
    ensures Inv(NewFile(s, f, volume))
  {
    NotCreated(s, f);
    hide CountsOk, VolumesOk, CleanedOk;
    CountsAfterNew(s.files, f, volume, s.tables, s.borrowed);
    VolumesAfterNew(s.files, f, volume, s.volumes, s.volumesHeld);
    CleanedAfterNew(s.files, f, volume, s.cleaned, s.created);
  }

  lemma CountsAfterNew(files: map<Fid, File>, f: Fid, volume: Option<Vid>, tables: seq<Table>, borrowed: multiset<Fid>)
    requires CountsOk(files, tables, borrowed) && f !in files
    ensures CountsOk(files[f := File(volume, 1)], tables, borrowed + multiset{f})
  {
    CountsAfter(files, files[f := File(volume, 1)], tables, borrowed, borrowed + multiset{f});
  }

  lemma CleanedAfterNew(files: map<Fid, File>, f: Fid, volume: Option<Vid>, cleaned: seq<Fid>, created: set<Fid>)
    requires CleanedOk(files, cleaned, created) && f !in created
    ensures CleanedOk(files[f := File(volume, 1)], cleaned, created + {f})
  {
    assert multiset(cleaned)[f] + (if f in files then 1 else 0) == 0;
  }

  lemma NotCreated(s: State, f: Fid)
    requires Inv(s) && f !in s.created
    ensures f !in s.files
  {
    assert multiset(s.cleaned)[f] + (if f in s.files then 1 else 0) == 0;
  }

  lemma VolumesAfterNew(files: map<Fid, File>, f: Fid, volume: Option<Vid>, volumes: map<Vid, nat>, held: multiset<Vid>)
    requires VolumesOk(files, volumes, held) && f !in files && (volume.Some? ==> volume.value in held)
    ensures var held' := if volume.Some? then held - multiset{volume.value} else held;
            VolumesOk(files[f := File(volume, 1)], volumes, held')
  {
    var files' := files[f := File(volume, 1)];
    forall v: Vid ensures |FilesOn(files', v)| == |FilesOn(files, v)| + if volume == Some(v) then 1 else 0 {
      FilesOnNew(files, f, volume, v);
    }
    hide FilesOn;
  }

  lemma FilesOnNew(files: map<Fid, File>, f: Fid, volume: Option<Vid>, v: Vid)
    requires f !in files
    ensures |FilesOn(files[f := File(volume, 1)], v)| == |FilesOn(files, v)| + if volume == Some(v) then 1 else 0
  {
    if volume == Some(v) {
      assert FilesOn(files[f := File(volume, 1)], v) == FilesOn(files, v) + {f};
    } else {
      assert FilesOn(files[f := File(volume, 1)], v) == FilesOn(files, v);
    }
  }

  // ---------- Which files go ----------

  /** The files after one reference to f was dropped. */
  function Without(files: map<Fid, File>, f: Fid): map<Fid, File>
    requires f in files
  {
    if files[f].ref <= 1 then files - {f} else files[f := files[f].(ref := files[f].ref - 1)]
  }

  /** One if these references are all that a file has, and otherwise zero. */
  function IsWhole(files: map<Fid, File>, f: Fid, references: nat): nat {
    if f in files && files[f].ref == references then 1 else 0
  }

  /** f was cleaned up n times in between. */
  predicate CleanedAs(before: seq<Fid>, after: seq<Fid>, f: Fid, n: nat) {
    multiset(after)[f] == multiset(before)[f] + n
  }

  /** When no file is made, the files that go are cleaned up, and they are those without references. */
  lemma WhoIsCleaned(s: State, r: State, f: Fid)
    requires Inv(s) && Inv(r) && r.created == s.created && s.cleaned <= r.cleaned
    ensures CleanedAs(s.cleaned, r.cleaned, f, if f in s.files && f !in r.files then 1 else 0)
    ensures f in s.files ==> (f !in r.files <==> AllSlots(r.tables, f) + r.borrowed[f] == 0)
  {
    assert r.cleaned == s.cleaned + r.cleaned[|s.cleaned|..];
    assert multiset(s.cleaned)[f] + (if f in s.files then 1 else 0) == if f in s.created then 1 else 0;
    assert multiset(r.cleaned)[f] + (if f in r.files then 1 else 0) == if f in r.created then 1 else 0;
    assert AllSlots(r.tables, f) + r.borrowed[f] == RefOf(r.files, f);
  }

  lemma TableCleaned(s: State, r: State, p: nat, f: Fid)
    requires Inv(s) && Inv(r) && r.created == s.created && s.cleaned <= r.cleaned && r.borrowed == s.borrowed
    requires p < |s.tables| == |r.tables| && r.tables == s.tables[p := r.tables[p]]
    requires forall k :: 0 <= k < |r.tables[p]| ==> r.tables[p][k] == None
    ensures CleanedAs(s.cleaned, r.cleaned, f, IsWhole(s.files, f, Slots(s.tables[p], f)))
  {
    WhoIsCleaned(s, r, f);
    SetTable(s.tables, p, r.tables[p], f);
    assert Some(f) !in r.tables[p];
    assert AllSlots(s.tables, f) + s.borrowed[f] == RefOf(s.files, f);
  }

  lemma HandlesCleaned(s: State, r: State, handles: seq<Fid>, f: Fid)
    requires Inv(s) && Inv(r) && r.created == s.created && s.cleaned <= r.cleaned && r.tables == s.tables
    requires multiset(handles) <= s.borrowed && r.borrowed == s.borrowed - multiset(handles)
    ensures CleanedAs(s.cleaned, r.cleaned, f, IsWhole(s.files, f, multiset(handles)[f]))
  {
    WhoIsCleaned(s, r, f);
    assert AllSlots(s.tables, f) + s.borrowed[f] == RefOf(s.files, f);
  }

  // ---------- Every sequence of operations ----------

  function EmptyTable(): Table { seq(MAX_FD, _ => None) }

  lemma {:induction false} NoSlots(tables: seq<Table>, f: Fid)
    requires forall p :: 0 <= p < |tables| ==> tables[p] == EmptyTable()
    ensures AllSlots(tables, f) == 0
    decreases |tables|
  {
    if tables != [] {
      assert Some(f) !in EmptyTable();
      NoSlots(tables[1..], f);
    }
  }

  /** At boot: no file was ever opened, the tables are empty, and the mounts hold one reference to each volume. */
  ghost predicate Boot(s: State) {
    && s.files == map[] && s.borrowed == multiset{} && s.volumesHeld == multiset{} && s.cleaned == [] && s.created == {}
    && (forall p :: 0 <= p < |s.tables| ==> s.tables[p] == EmptyTable())
    && forall v :: v in s.volumes ==> s.volumes[v] == 1
  }

  lemma BootInv(s: State)
    requires Boot(s)
    ensures Inv(s)
  {
    forall f ensures AllSlots(s.tables, f) == 0 { NoSlots(s.tables, f); }
    assert forall v :: FilesOn(s.files, v) == {};
  }

  datatype Op =
    NewOp(f: Fid, volume: Option<Vid>) | RefOp(f: Fid) | DerefOp(f: Fid) | StoreOp(p: nat, fd: nat, f: Fid)
    | ClearOp(p: nat, fd: nat) | HoldOp(v: Vid) | ReleaseOp(v: Vid) | UnmountOp(v: Vid)

  /** A reference is dropped, or put into a slot, by a call that holds it; a new file is one that there never was. */
  predicate Can(s: State, op: Op) {
    match op
    case NewOp(f, volume) => f !in s.created && (volume.Some? ==> volume.value in s.volumesHeld)
    case RefOp(f) => f in s.files
    case DerefOp(f) => f in s.borrowed && f in s.files
    case StoreOp(p, fd, f) =>
      p < |s.tables| && fd < |s.tables[p]| && s.tables[p][fd] == None && f in s.borrowed
    case ClearOp(p, fd) => p < |s.tables| && fd < |s.tables[p]| && s.tables[p][fd].Some?
    case HoldOp(v) => v in s.volumes
    case ReleaseOp(v) => v in s.volumesHeld && v in s.volumes && s.volumes[v] > 0
    case UnmountOp(v) => v in s.volumes && s.volumes[v] == 1
  }

  function Do(s: State, op: Op): State
    requires Can(s, op)
  {
    match op
    case NewOp(f, volume) => NewFile(s, f, volume)
    case RefOp(f) => AddRef(s, f)
    case DerefOp(f) => DropRef(s, f)
    case StoreOp(p, fd, f) => IntoSlot(s, p, fd, f)
    case ClearOp(p, fd) => OutOfSlot(s, p, fd)
    case HoldOp(v) => s.(volumes := s.volumes[v := s.volumes[v] + 1], volumesHeld := s.volumesHeld + multiset{v})
    case ReleaseOp(v) => s.(volumes := s.volumes[v := s.volumes[v] - 1], volumesHeld := s.volumesHeld - multiset{v})
    case UnmountOp(v) => s.(volumes := s.volumes - {v})
  }

  lemma DoKeeps(s: State, op: Op)
    requires Inv(s) && Can(s, op)
    ensures Inv(Do(s, op))
  {
    match op
    case NewOp(f, volume) => NewFileKeeps(s, f, volume);
    case RefOp(f) => AddRefKeeps(s, f);
    case DerefOp(f) => DropRefKeeps(s, f);
    case StoreOp(p, fd, f) => IntoSlotKeeps(s, p, fd, f);
    case ClearOp(p, fd) => OutOfSlotKeeps(s, p, fd);
    case _ => VolumeOpKeeps(s, op);
  }

  lemma VolumeOpKeeps(s: State, op: Op)
    requires Inv(s) && Can(s, op) && (op.HoldOp? || op.ReleaseOp? || op.UnmountOp?)
    ensures Inv(Do(s, op))
  {
    hide CountsOk, CleanedOk;
    if op.UnmountOp? {
      assert FilesOn(s.files, op.v) == {};
      assert forall f :: f in s.files && s.files[f].volume == Some(op.v) ==> f in FilesOn(s.files, op.v);
    }
    hide FilesOn;
  }

  ghost predicate Run(states: seq<State>, ops: seq<Op>) {
    && |states| == |ops| + 1 && Boot(states[0])
    && forall i :: 0 <= i < |ops| ==> Can(states[i], ops[i]) && states[i + 1] == Do(states[i], ops[i])
  }

  lemma {:induction false} RunKeeps(states: seq<State>, ops: seq<Op>, i: nat)
    requires Run(states, ops) && i < |states|
    ensures Inv(states[i])
  {
    if i == 0 {
      BootInv(states[0]);
    } else {
      RunKeeps(states, ops, i - 1);
      hide Inv, Do, Can;
      assert Can(states[i - 1], ops[i - 1]) && states[i] == Do(states[i - 1], ops[i - 1]);
      DoKeeps(states[i - 1], ops[i - 1]);
    }
  }

  /** A file was made by one of the first i operations. */
  predicate MadeBefore(ops: seq<Op>, i: nat, f: Fid) {
    exists k :: 0 <= k < i && k < |ops| && ops[k].NewOp? && ops[k].f == f
  }

  lemma {:induction false} CreatedIs(states: seq<State>, ops: seq<Op>, i: nat, f: Fid)
    requires Run(states, ops) && i < |states|
    ensures f in states[i].created <==> MadeBefore(ops, i, f)
  {
    if i > 0 {
      CreatedIs(states, ops, i - 1, f);
      var op := ops[i - 1];
      assert Can(states[i - 1], op) && states[i] == Do(states[i - 1], op);
      assert MadeBefore(ops, i, f) <==> MadeBefore(ops, i - 1, f) || (op.NewOp? && op.f == f);
    }
  }

  /** Over every run: a file that was made is there, with one reference for each slot and each handle, or it was
      cleaned up exactly once; and it is there for just as long as it has any. */
  lemma EveryFile(states: seq<State>, ops: seq<Op>, i: nat, f: Fid)
    requires Run(states, ops) && i < |states|
    ensures var s := states[i];
            && multiset(s.cleaned)[f] == (if MadeBefore(ops, i, f) && f !in s.files then 1 else 0)
            && (f in s.files ==> MadeBefore(ops, i, f) && s.files[f].ref == AllSlots(s.tables, f) + s.borrowed[f] > 0)
            && (f !in s.files ==> AllSlots(s.tables, f) + s.borrowed[f] == 0)
  {
    RunKeeps(states, ops, i);
    CreatedIs(states, ops, i, f);
    var s := states[i];
    assert multiset(s.cleaned)[f] + (if f in s.files then 1 else 0) == if f in s.created then 1 else 0;
    assert AllSlots(s.tables, f) + s.borrowed[f] == RefOf(s.files, f);
  }

  // ---------- Handles of one call ----------

  /** One handle per descriptor, on the file in its slot. */
  ghost predicate HandlesOf(table: Table, fds: seq<nat>, handles: seq<Fid>) {
    |handles| == |fds| && forall k :: 0 <= k < |fds| ==> fds[k] < |table| && table[fds[k]] == Some(handles[k])
  }

  lemma HandlesAtEnds(table: Table, fds: seq<nat>, handles: seq<Fid>)
    ensures HandlesOf(table, fds[..0], [])
    ensures HandlesOf(table, fds[..|fds|], handles) ==>
      HandlesOf(table, fds, handles) && forall k :: 0 <= k < |fds| ==> fds[k] < |table| && table[fds[k]].Some?
  {
    assert fds[..|fds|] == fds;
  }

  lemma MoreHandles(table: Table, fds: seq<nat>, i: nat, handles: seq<Fid>, f: Fid)
    requires i < |fds| && fds[i] < |table| && table[fds[i]] == Some(f) && HandlesOf(table, fds[..i], handles)
    ensures HandlesOf(table, fds[..i + 1], handles + [f])
  {
    assert fds[..i + 1] == fds[..i] + [fds[i]];
  }

  lemma TakeFirst(held: multiset<Fid>, handles: seq<Fid>, j: nat)
    requires j < |handles| && multiset(handles[j..]) <= held
    ensures handles[j] in held && multiset(handles[j + 1..]) <= held - multiset{handles[j]}
    ensures held - multiset{handles[j]} - multiset(handles[j + 1..]) == held - multiset(handles[j..])
  {
    assert handles[j..] == [handles[j]] + handles[j + 1..];
  }

  lemma TakeLast(held: multiset<Fid>, handles: seq<Fid>, f: Fid)
    ensures held + multiset(handles) + multiset{f} == held + multiset(handles + [f])
  {
  }

  lemma GiveBack(held: multiset<Fid>, handles: seq<Fid>)
    ensures multiset(handles) <= held + multiset(handles) && held + multiset(handles) - multiset(handles) == held
  {
  }

  // ---------- The code ----------

  class FileSystem {
    var files: map<Fid, File>
    var volumes: map<Vid, nat>
    var tables: seq<Table>
    ghost var borrowed: multiset<Fid>
    ghost var volumesHeld: multiset<Vid>
    ghost var cleaned: seq<Fid>
    ghost var created: set<Fid>

    ghost function View(): State
      reads this
    {
      State(files, volumes, tables, borrowed, volumesHeld, cleaned, created)
    }

    /** At boot: no file is open, the tables are empty, and the mounts hold one reference to each volume. */
    constructor (processes: nat, mounted: set<Vid>)
      ensures Inv(View()) && Boot(View())
      ensures |tables| == processes && volumes.Keys == mounted
    {
      files, volumes := map[], map v | v in mounted :: 1;
      tables := seq(processes, _ => EmptyTable());
      borrowed, volumesHeld, cleaned, created := multiset{}, multiset{}, [], {};
      new;
      BootInv(View());
    }

    /** The part of vfs_unmount that decides: a volume goes exactly if no file is open on it and no call holds it. */
    method Unmount(v: Vid, willing: bool) returns (ok: bool)
      requires Inv(View())
      modifies this`volumes
      ensures Inv(View()) && (ok <==> v in old(volumes) && FilesOn(files, v) == {} && v !in volumesHeld && willing)
      ensures volumes == if ok then old(volumes) - {v} else old(volumes)
    {
      hide CountsOk, CleanedOk;
      if v !in volumes || volumes[v] != 1 || !willing { return false; }
      assert FilesOn(files, v) == {};
      assert forall f :: f in files && files[f].volume == Some(v) ==> f in FilesOn(files, v);
      volumes := volumes - {v};
      return true;
    }

    /** file_ref. */
    method Ref(f: Fid)
      requires Inv(View()) && f in files
      modifies this
      ensures Inv(View()) && View() == AddRef(old(View()), f)
      ensures created == old(created) && cleaned == old(cleaned)
    {
      hide CountsOk, VolumesOk, CleanedOk;
      AddRefKeeps(View(), f);
      files := files[f := files[f].(ref := files[f].ref + 1)];
      borrowed := borrowed + multiset{f};
    }

    /** file_deref, by a call that holds a handle. */
    method Deref(f: Fid)
      requires Inv(View()) && f in borrowed
      modifies this
      ensures Inv(View()) && old(f in files) && View() == DropRef(old(View()), f)
      ensures created == old(created) && cleaned == old(cleaned) + if old(files[f].ref) == 1 then [f] else []
      ensures files == Without(old(files), f)
      ensures borrowed == old(borrowed) - multiset{f} && tables == old(tables)
    {
      hide CountsOk, VolumesOk, CleanedOk;
      BorrowedIsLive(View(), f);
      DropRefKeeps(View(), f);
      var file := files[f];
      borrowed := borrowed - multiset{f};
      if file.ref <= 1 {
        cleaned := cleaned + [f];
        if file.volume.Some? && file.volume.value in volumes && volumes[file.volume.value] > 0 {
          volumes := volumes[file.volume.value := volumes[file.volume.value] - 1];
        }
        files := files - {f};
      } else {
        files := files[f := file.(ref := file.ref - 1)];
      }
    }

    /** vfs_context_open: the first free slot takes a reference. */
    method Open(p: nat, f: Fid) returns (fd: Option<nat>)
      requires Inv(View()) && p < |tables| && f in files
      modifies this
      ensures Inv(View()) && borrowed == old(borrowed)
      ensures fd.Some? ==> fd.value < MAX_FD && tables == old(tables)[p := old(tables)[p][fd.value := Some(f)]]
      ensures fd.None? ==> View() == old(View()) && forall k :: 0 <= k < MAX_FD ==> tables[p][k].Some?
      ensures fd.Some? ==>
        fd.value < MAX_FD && old(tables)[p][fd.value] == None
        && View() == IntoSlot(AddRef(old(View()), f), p, fd.value, f)
      ensures created == old(created) && cleaned == old(cleaned)
      ensures fd.Some? ==> files == old(files)[f := old(files)[f].(ref := old(files)[f].ref + 1)]
    {
      hide CountsOk, VolumesOk, CleanedOk;
      for k := 0 to MAX_FD
        invariant View() == old(View()) && forall j :: 0 <= j < k ==> tables[p][j].Some?
      {
        if tables[p][k] == None {
          Ref(f);
          IntoSlotKeeps(View(), p, k, f);
          tables := tables[p := tables[p][k := Some(f)]];
          borrowed := borrowed - multiset{f};
          assert old(borrowed) + multiset{f} - multiset{f} == old(borrowed);
          return Some(k);
        }
      }
      return None;
    }

    /** vfs_context_openat. */
    method OpenAt(p: nat, fd: nat, f: Fid) returns (ok: bool)
      requires Inv(View()) && p < |tables| && f in files
      modifies this
      ensures Inv(View()) && (ok <==> fd < MAX_FD && old(tables)[p][fd] == None)
      ensures View() == if ok then IntoSlot(AddRef(old(View()), f), p, fd, f) else old(View())
      ensures created == old(created) && cleaned == old(cleaned)
    {
      hide CountsOk, VolumesOk, CleanedOk;
      if fd >= MAX_FD || tables[p][fd].Some? { return false; }
      Ref(f);
      IntoSlotKeeps(View(), p, fd, f);
      tables := tables[p := tables[p][fd := Some(f)]];
      borrowed := borrowed - multiset{f};
      return true;
    }

    /** vfs_context_close. */
    method Close(p: nat, fd: nat) returns (ok: bool)
      requires Inv(View()) && p < |tables|
      modifies this
      ensures Inv(View()) && (ok <==> fd < MAX_FD && old(tables)[p][fd].Some?) && borrowed == old(borrowed)
      ensures if ok then tables == old(tables)[p := old(tables)[p][fd := None]] else View() == old(View())
      ensures created == old(created)
      ensures cleaned == old(cleaned) +
        if ok && old(tables[p][fd].value in files && files[tables[p][fd].value].ref == 1)
        then [old(tables)[p][fd].value] else []
      ensures ok ==> old(tables[p][fd].value in files) && files == Without(old(files), old(tables)[p][fd].value)
    {
      hide CountsOk, VolumesOk, CleanedOk;
      if fd >= MAX_FD || tables[p][fd].None? { return false; }
      OutOfSlotKeeps(View(), p, fd);
      var f := tables[p][fd].value;
      tables := tables[p := tables[p][fd := None]];
      borrowed := borrowed + multiset{f};
      Deref(f);
      assert old(borrowed) + multiset{f} - multiset{f} == old(borrowed);
      return true;
    }

    /** vfs_context_get, for a descriptor in range: a handle on the file in the slot. */
    method Get(p: nat, fd: nat) returns (f: Option<Fid>)
      requires Inv(View()) && p < |tables| && fd < MAX_FD
      modifies this
      ensures Inv(View()) && f == old(tables)[p][fd] && tables == old(tables)
      ensures if f.Some? then old(f.value in files) && View() == AddRef(old(View()), f.value) else View() == old(View())
      ensures created == old(created) && cleaned == old(cleaned)
    {
      hide CountsOk, VolumesOk, CleanedOk;
      f := tables[p][fd];
      if f.None? { return; }
      SlotIsLive(View(), p, fd);
      Ref(f.value);
    }

    /** vfs_context_cleanup: every reference of a dying process is dropped. */
    method ContextCleanup(p: nat)
      requires Inv(View()) && p < |tables|
      modifies this
      ensures Inv(View()) && borrowed == old(borrowed) && |tables| == |old(tables)|
      ensures tables == old(tables)[p := tables[p]] && forall k :: 0 <= k < MAX_FD ==> tables[p][k] == None
      ensures created == old(created) && old(cleaned) <= cleaned
      ensures forall f :: CleanedAs(old(cleaned), cleaned, f, IsWhole(old(files), f, Slots(old(tables)[p], f)))
    {
      hide CountsOk, VolumesOk, CleanedOk;
      for k := 0 to MAX_FD
        invariant created == old(created) && old(cleaned) <= cleaned
        invariant Inv(View()) && borrowed == old(borrowed) && |tables| == |old(tables)|
        invariant tables == old(tables)[p := tables[p]]
        invariant forall j :: 0 <= j < k ==> tables[p][j] == None
      {
        if tables[p][k].Some? {
          var ok := Close(p, k);
        }
      }
      forall f ensures CleanedAs(old(cleaned), cleaned, f, IsWhole(old(files), f, Slots(old(tables)[p], f))) {
        TableCleaned(old(View()), View(), p, f);
      }
    }

    /** file_new: the identity is new, as fresh memory is. */
    method New(f: Fid, volume: Option<Vid>)
      requires Inv(View()) && f !in created && (volume.Some? ==> volume.value in volumesHeld)
      modifies this
      ensures Inv(View()) && View() == NewFile(old(View()), f, volume)
      ensures created == old(created) + {f} && cleaned == old(cleaned)
    {
      hide CountsOk, VolumesOk, CleanedOk;
      NewFileKeeps(View(), f, volume);
      files := files[f := File(volume, 1)];
      borrowed := borrowed + multiset{f};
      if volume.Some? { volumesHeld := volumesHeld - multiset{volume.value}; }
      created := created + {f};
    }

    /** The beginning of a call's use of the file in a slot. */
    method BeginUse(p: nat, fd: nat) returns (f: Option<Fid>)
      requires Inv(View()) && p < |tables| && fd < MAX_FD
      modifies this
      ensures Inv(View()) && f == old(tables)[p][fd] && tables == old(tables)
      ensures borrowed == if f.Some? then old(borrowed) + multiset{f.value} else old(borrowed)
      ensures created == old(created) && cleaned == old(cleaned)
    {
      f := Get(p, fd);
    }

    /** The end of a call's use of a file: a deferred file_deref. */
    method EndUse(f: Fid)
      requires Inv(View()) && f in borrowed
      modifies this
      ensures Inv(View()) && borrowed == old(borrowed) - multiset{f} && tables == old(tables)
      ensures created == old(created)
      ensures cleaned == old(cleaned) + if old(f in files && files[f].ref == 1) then [f] else []
      ensures old(f in files) && files == Without(old(files), f)
    {
      Deref(f);
    }

    /** syscall_pipe, after its argument was checked: on every path the handles taken are given back; on success both
        ends have a slot, and otherwise the table is as it was. */
    method SyscallPipe(p: nat, r: Fid, w: Fid) returns (fds: Option<(nat, nat)>)
      requires Inv(View()) && p < |tables| && r != w && r !in created && w !in created
      modifies this
      ensures Inv(View()) && borrowed == old(borrowed)
      ensures fds.Some? ==>
        var (i, j) := fds.value;
        i < MAX_FD && j < MAX_FD && i != j && tables == old(tables)[p := old(tables)[p][i := Some(r)][j := Some(w)]]
      ensures fds.None? ==> tables == old(tables)
      ensures created == old(created) + {r, w}
      ensures if fds.Some? then r in files && w in files && cleaned == old(cleaned)
        else r !in files && w !in files && cleaned == old(cleaned) + [w, r]
    {
      hide Inv, CountsOk, VolumesOk, CleanedOk, IntoSlot, AddRef, NewFile;
      MakePipe(r, w);
      fds := OpenBoth(p, r, w);
      EndUse(w);
      EndUse(r);
    }

    /** pipe_init, as it runs: its allocations are not empty, so that none of them fails. */
    method MakePipe(r: Fid, w: Fid)
      requires Inv(View()) && r != w && r !in created && w !in created
      modifies this
      ensures Inv(View()) && tables == old(tables) && borrowed == old(borrowed) + multiset{r, w}
      ensures created == old(created) + {r, w} && cleaned == old(cleaned)
      ensures files == old(files)[r := File(None, 1)][w := File(None, 1)]
    {
      hide Inv, CountsOk, VolumesOk, CleanedOk;
      New(r, None);
      New(w, None);
      assert old(borrowed) + multiset{r} + multiset{w} == old(borrowed) + multiset{r, w};
    }

    method OpenBoth(p: nat, r: Fid, w: Fid) returns (fds: Option<(nat, nat)>)
      requires Inv(View()) && p < |tables| && r in borrowed && w in borrowed
      modifies this
      ensures Inv(View()) && borrowed == old(borrowed)
      ensures fds.Some? ==>
        var (i, j) := fds.value;
        i < MAX_FD && j < MAX_FD && i != j && tables == old(tables)[p := old(tables)[p][i := Some(r)][j := Some(w)]]
      ensures fds.None? ==> tables == old(tables)
      ensures created == old(created) && cleaned == old(cleaned) && (fds.None? ==> files == old(files))
      ensures r in files && w in files && (fds.Some? && r != w ==> files[r].ref > 1 && files[w].ref > 1)
    {
      hide CountsOk, VolumesOk, CleanedOk, IntoSlot, AddRef;
      BorrowedIsLive(View(), r);
      BorrowedIsLive(View(), w);
      var i := Open(p, r);
      if i.None? { return None; }
      BorrowedIsLive(View(), w);
      var j := Open(p, w);
      if j.None? {
        var ok := Close(p, i.value);
        assert tables[p] == old(tables)[p];
        return None;
      }
      return Some((i.value, j.value));
    }

    /** The descriptor loop of syscall_spawn: each file of the parent is borrowed, given a slot of the child, and given
        back; on failure the child's references are all dropped. */
    method SpawnFiles(parent: nat, child: nat, fds: seq<(nat, nat)>) returns (ok: bool)
      requires Inv(View()) && parent < |tables| && child < |tables| && parent != child
      requires forall k :: 0 <= k < |fds| ==> fds[k].0 < MAX_FD
      modifies this
      ensures Inv(View()) && borrowed == old(borrowed) && |tables| == |old(tables)|
      ensures tables[parent] == old(tables)[parent]
      ensures ok ==> forall k :: 0 <= k < |fds| ==>
        fds[k].1 < MAX_FD && tables[child][fds[k].1] == old(tables)[parent][fds[k].0] != None
      ensures !ok ==> forall k :: 0 <= k < MAX_FD ==> tables[child][k] == None
      ensures created == old(created) && old(cleaned) <= cleaned
    {
      hide CountsOk, VolumesOk, CleanedOk;
      for k := 0 to |fds|
        invariant created == old(created) && old(cleaned) <= cleaned
        invariant Inv(View()) && borrowed == old(borrowed) && |tables| == |old(tables)|
        invariant tables[parent] == old(tables)[parent]
        invariant forall j ::
          0 <= j < k ==> fds[j].1 < MAX_FD && tables[child][fds[j].1] == old(tables)[parent][fds[j].0] != None
      {
        ok := GiveFile(parent, child, fds[k].0, fds[k].1);
        if !ok { return; }
      }
      return true;
    }

    /** One turn of that loop; a failure frees the child. */
    method GiveFile(parent: nat, child: nat, from: nat, to: nat) returns (ok: bool)
      requires Inv(View()) && parent < |tables| && child < |tables| && parent != child && from < MAX_FD
      modifies this
      ensures Inv(View()) && borrowed == old(borrowed) && |tables| == |old(tables)|
      ensures tables[parent] == old(tables)[parent]
      ensures ok <==> to < MAX_FD && old(tables)[child][to] == None && old(tables)[parent][from].Some?
      ensures ok ==> tables == old(tables)[child := old(tables)[child][to := old(tables)[parent][from]]]
      ensures !ok ==> forall k :: 0 <= k < MAX_FD ==> tables[child][k] == None
      ensures created == old(created) && old(cleaned) <= cleaned
    {
      hide CountsOk, VolumesOk, CleanedOk;
      var f := Get(parent, from);
      if f.None? {
        ContextCleanup(child);
        return false;
      }
      ok := OpenAt(child, to, f.value);
      assert borrowed == old(borrowed) + multiset{f.value};
      if !ok { ContextCleanup(child); }
      EndUse(f.value);
    }

    /** syscall_poll, after its buffer was checked, with the wait left out: on every path the handles taken are given
        back. */
    method SyscallPoll(p: nat, fds: seq<nat>) returns (ok: bool)
      requires Inv(View()) && p < |tables| && forall k :: 0 <= k < |fds| ==> fds[k] < MAX_FD
      modifies this
      ensures Inv(View()) && borrowed == old(borrowed) && tables == old(tables)
      ensures ok <==> 0 < |fds| <= MAX_FD && forall k :: 0 <= k < |fds| ==> tables[p][fds[k]].Some?
      ensures created == old(created) && old(cleaned) <= cleaned
    {
      hide CountsOk, VolumesOk, CleanedOk;
      if |fds| == 0 || |fds| > MAX_FD { return false; }
      var taken := PollTake(p, fds);
      if taken.None? { return false; }
      PollDrop(taken.value);
      return true;
    }

    /** What an empty slot undoes. */
    method PollUndo(ghost before: multiset<Fid>, handles: seq<Fid>)
      requires Inv(View()) && borrowed == before + multiset(handles)
      modifies this
      ensures Inv(View()) && tables == old(tables) && borrowed == before
      ensures created == old(created) && old(cleaned) <= cleaned
    {
      GiveBack(before, handles);
      hide Inv;
      PollDrop(handles);
    }

    /** One turn of the loop in PollTake. */
    method PollOne(p: nat, fds: seq<nat>, i: nat, handles: seq<Fid>, ghost before: multiset<Fid>)
      returns (more: Option<seq<Fid>>)
      requires Inv(View()) && p < |tables| && i < |fds| && fds[i] < MAX_FD && HandlesOf(tables[p], fds[..i], handles)
      requires borrowed == before + multiset(handles)
      modifies this
      ensures Inv(View()) && tables == old(tables) && created == old(created) && cleaned == old(cleaned)
      ensures more.Some? <==> tables[p][fds[i]].Some?
      ensures if more.Some? then
                HandlesOf(tables[p], fds[..i + 1], more.value) && borrowed == before + multiset(more.value)
              else borrowed == old(borrowed)
    {
      hide CountsOk, VolumesOk, CleanedOk, HandlesOf;
      var f := BeginUse(p, fds[i]);
      if f.None? { return None; }
      TakeLast(before, handles, f.value);
      MoreHandles(tables[p], fds, i, handles, f.value);
      return Some(handles + [f.value]);
    }

    /** The loop that takes a handle per descriptor; at an empty slot the handles taken before it are dropped. */
    method PollTake(p: nat, fds: seq<nat>) returns (taken: Option<seq<Fid>>)
      requires Inv(View()) && p < |tables| && forall k :: 0 <= k < |fds| ==> fds[k] < MAX_FD
      modifies this
      ensures Inv(View()) && tables == old(tables)
      ensures taken.Some? <==> forall k :: 0 <= k < |fds| ==> tables[p][fds[k]].Some?
      ensures taken.Some? ==> HandlesOf(tables[p], fds, taken.value)
      ensures borrowed == if taken.Some? then old(borrowed) + multiset(taken.value) else old(borrowed)
      ensures created == old(created) && old(cleaned) <= cleaned
    {
      ghost var table := tables[p];
      hide Inv, CountsOk, VolumesOk, CleanedOk, HandlesOf;
      HandlesAtEnds(table, fds, []);
      var handles: seq<Fid> := [];
      for i := 0 to |fds|
        invariant created == old(created) && cleaned == old(cleaned)
        invariant Inv(View()) && tables == old(tables) && tables[p] == table && HandlesOf(table, fds[..i], handles)
        invariant borrowed == old(borrowed) + multiset(handles)
      {
        var more := PollOne(p, fds, i, handles, old(borrowed));
        if more.None? {
          PollUndo(old(borrowed), handles);
          return None;
        }
        handles := more.value;
      }
      HandlesAtEnds(table, fds, handles);
      return Some(handles);
    }

    /** The loop that gives handles back.  It asks only that they are still held, whatever others did meanwhile. */
    method PollDrop(handles: seq<Fid>)
      requires Inv(View()) && multiset(handles) <= borrowed
      modifies this
      ensures Inv(View()) && tables == old(tables) && borrowed == old(borrowed) - multiset(handles)
      ensures created == old(created) && old(cleaned) <= cleaned
      ensures forall f :: CleanedAs(old(cleaned), cleaned, f, IsWhole(old(files), f, multiset(handles)[f]))
    {
      hide CountsOk, VolumesOk, CleanedOk;
      assert handles[0..] == handles;
      for j := 0 to |handles|
        invariant created == old(created) && old(cleaned) <= cleaned
        invariant Inv(View()) && tables == old(tables)
        invariant multiset(handles[j..]) <= borrowed
        invariant borrowed - multiset(handles[j..]) == old(borrowed) - multiset(handles)
      {
        TakeFirst(borrowed, handles, j);
        EndUse(handles[j]);
      }
      forall f ensures CleanedAs(old(cleaned), cleaned, f, IsWhole(old(files), f, multiset(handles)[f])) {
        HandlesCleaned(old(View()), View(), handles, f);
      }
    }

    /** volume_ref, in volume_get. */
    method VolumeRef(v: Vid)
      requires Inv(View()) && v in volumes
      modifies this
      ensures Inv(View()) && volumesHeld == old(volumesHeld) + multiset{v}
      ensures volumes == old(volumes)[v := old(volumes)[v] + 1]
      ensures files == old(files) && tables == old(tables) && borrowed == old(borrowed)
      ensures created == old(created) && cleaned == old(cleaned)
    {
      hide CountsOk, CleanedOk, FilesOn;
      volumes := volumes[v := volumes[v] + 1];
      volumesHeld := volumesHeld + multiset{v};
    }

    /** volume_deref, by a call that holds a reference. */
    method VolumeDeref(v: Vid)
      requires Inv(View()) && v in volumesHeld
      modifies this
      ensures Inv(View()) && volumesHeld == old(volumesHeld) - multiset{v}
      ensures files == old(files) && tables == old(tables) && borrowed == old(borrowed)
      ensures created == old(created) && cleaned == old(cleaned)
    {
      hide CountsOk, CleanedOk, FilesOn;
      volumes := volumes[v := volumes[v] - 1];
      volumesHeld := volumesHeld - multiset{v};
    }

    /** vfs_open, after its path was parsed: volume is the volume found, if any, hasOpen and opens say whether it can
        open files and does open this one.  On every path no volume reference stays behind but the one a new file
        holds. */
    method OpenOnVolume(volume: Option<Vid>, hasOpen: bool, opens: bool, f: Fid) returns (ok: bool)
      requires Inv(View()) && (volume.Some? ==> volume.value in volumes) && f !in created
      modifies this
      ensures Inv(View()) && volumesHeld == old(volumesHeld) && tables == old(tables)
      ensures ok <==> volume.Some? && hasOpen && opens
      ensures ok ==> files == old(files)[f := File(volume, 1)] && borrowed == old(borrowed) + multiset{f}
      ensures !ok ==> files == old(files) && borrowed == old(borrowed)
      ensures created == (if ok then old(created) + {f} else old(created)) && cleaned == old(cleaned)
    {
      hide CountsOk, VolumesOk, CleanedOk;
      if volume.None? { return false; }
      VolumeRef(volume.value);
      assert old(volumesHeld) + multiset{volume.value} - multiset{volume.value} == old(volumesHeld);
      if !hasOpen || !opens {
        VolumeDeref(volume.value);
        return false;
      }
      New(f, volume);
      return true;
    }

    /** vfs_stat and vfs_listdir, after their path was parsed: the volume reference is given back on every path. */
    method QueryVolume(volume: Option<Vid>, hasQuery: bool) returns (ok: bool)
      requires Inv(View()) && (volume.Some? ==> volume.value in volumes)
      modifies this
      ensures Inv(View()) && volumesHeld == old(volumesHeld) && files == old(files) && tables == old(tables)
      ensures borrowed == old(borrowed)
      ensures ok <==> volume.Some? && hasQuery
      ensures created == old(created) && cleaned == old(cleaned)
    {
      hide CountsOk, VolumesOk, CleanedOk;
      if volume.None? { return false; }
      VolumeRef(volume.value);
      assert old(volumesHeld) + multiset{volume.value} - multiset{volume.value} == old(volumesHeld);
      VolumeDeref(volume.value);
      return hasQuery;
    }
  }

  /** What a quiet system looks like: with no call in progress, a file's counter is the number of its slots, a
      volume's is one more than the files on it, and every other file ever cleaned up was cleaned up once. */
  lemma Quiescent(s: State, f: Fid, v: Vid)
    requires Inv(s) && s.borrowed == multiset{} && s.volumesHeld == multiset{}
    ensures f in s.files ==> s.files[f].ref == AllSlots(s.tables, f) > 0
    ensures f !in s.files ==> AllSlots(s.tables, f) == 0
    ensures v in s.volumes ==> s.volumes[v] == 1 + |FilesOn(s.files, v)|
    ensures f in s.cleaned ==> f !in s.files && multiset(s.cleaned)[f] == 1
  {
    assert AllSlots(s.tables, f) + s.borrowed[f] == RefOf(s.files, f);
    assert multiset(s.cleaned)[f] + (if f in s.files then 1 else 0) <= 1;
    assert f in s.cleaned ==> f in multiset(s.cleaned);
  }
}
