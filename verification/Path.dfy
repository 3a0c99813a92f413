/**
 The path canonicaliser of the virtual file system.  A canonical path is a label, ':' and "/name" for each
 component; parsing walks the path's names and keeps the output as text that it grows and cuts back.
 */
module Path {
  import opened Options

  const MAX_PATH: nat := 256

  /** Text up to, and not including, its terminating NUL. */
  type CString = s: string | '\0' !in s

  predicate ValidChar(c: char) {
    'A' <= c <= 'Z' || 'a' <= c <= 'z' || '0' <= c <= '9' || c in "_-. ()[]{}~!@#$%^&',;=+"
  }

  predicate AllValid(s: string) { forall i :: 0 <= i < |s| ==> ValidChar(s[i]) }

  // ---------- Names of a path ----------

  /** The length of the name at the start of a path: up to '/' or the end. */
  function NameLength(path: CString): (n: nat)
    ensures n <= |path| && (forall i :: 0 <= i < n ==> path[i] != '/') && (n < |path| ==> path[n] == '/')
  {
    if path == [] || path[0] == '/' then 0 else 1 + NameLength(path[1..])
  }

  function FirstName(path: CString): CString { path[..NameLength(path)] }

  /** The names that the parser visits: the parts between slashes, without an empty part after a last slash. */
  function Names(path: CString): (ns: seq<CString>)
    ensures |ns| > 0 && ns[0] == FirstName(path)
    decreases |path|
  {
    var n := NameLength(path);
    if n + 1 >= |path| then [path[..n]] else [path[..n]] + Names(path[n + 1..])
  }

  // ---------- The meaning: a stack of components ----------

  datatype Location = Location(volume: string, comps: seq<string>)

  function Slashed(comps: seq<string>): string {
    if comps == [] then "" else Slashed(comps[..|comps|-1]) + "/" + comps[|comps|-1]
  }

  function Render(l: Location): string { l.volume + ":" + Slashed(l.comps) }

  /** A name can be pushed if its characters are valid and its last one lies within the limit, counted from the ':'. */
  predicate CanPush(comps: seq<string>, name: string) {
    AllValid(name) && (name == "" || |Slashed(comps)| + |name| < MAX_PATH - 2)
  }

  /** "." stays, ".." pops, any other name is pushed. */
  function Enter(comps: seq<string>, name: string): Option<seq<string>> {
    if name == "." then Some(comps)
    else if name == ".." then (if comps == [] then None else Some(comps[..|comps|-1]))
    else if CanPush(comps, name) then Some(comps + [name]) else None
  }

  function Fold(comps: seq<string>, names: seq<string>): Option<seq<string>>
    decreases |names|
  {
    if names == [] then Some(comps)
    else match Enter(comps, names[0]) case None => None case Some(c) => Fold(c, names[1..])
  }

  /** The position of the label separator in the first name, or the name's length if there is none. */
  function LabelLength(path: CString): (n: nat)
    ensures n <= NameLength(path) && (forall i :: 0 <= i < n ==> path[i] != ':')
    ensures n < NameLength(path) ==> path[n] == ':'
  {
    if path == [] || path[0] == '/' || path[0] == ':' then 0 else 1 + LabelLength(path[1..])
  }

  /** What a path means from a working directory, or None if it is rejected. */
  function Resolve(cwd: Location, path: CString): Option<Location> {
    var i := LabelLength(path);
    if path != [] && path[0] == '/' then At(cwd.volume, Fold([], Names(path)[1..]))
    else if !AllValid(path[..i]) then None
    else if i < NameLength(path) then
      if i + 1 < NameLength(path) then None else At(path[..i], Fold([], Names(path[i + 1..])[1..]))
    else At(cwd.volume, Fold(cwd.comps, Names(path)))
  }

  function At(volume: string, comps: Option<seq<string>>): Option<Location> {
    if comps.Some? then Some(Location(volume, comps.value)) else None
  }

  function RenderOption(l: Option<Location>): Option<string> { if l.Some? then Some(Render(l.value)) else None }

  /** A component as the parser leaves it. */
  predicate IsComponent(c: string) { AllValid(c) && c != "." && c != ".." }

  /** Every component is one that could be pushed onto those below it. */
  predicate CompsOk(comps: seq<string>) {
    forall k :: 0 <= k < |comps| ==> IsComponent(comps[k]) && CanPush(comps[..k], comps[k])
  }

  predicate LocationOk(l: Location) { AllValid(l.volume) && CompsOk(l.comps) }

  // ---------- How much of the output buffer is written ----------

  function Max(x: nat, y: nat): nat { if x > y then x else y }

  /** How many characters of a name are written before the first that is invalid or past the limit. */
  function Written(name: string, room: int): (n: nat)
    ensures n <= |name|
  {
    if name == "" || !ValidChar(name[0]) || room <= 0 then 0 else 1 + Written(name[1..], room - 1)
  }

  /** The room that the limit leaves for a name after these components, counted from the ':'. */
  function Room(comps: seq<string>): int { MAX_PATH - 3 - |Slashed(comps)| }

  /** The bytes of a location's text with a slash and the terminating NUL. */
  function Bytes(l: Location): (n: nat)
    ensures n >= 2
  {
    |Render(l)| + 2
  }

  /** The most bytes of the buffer that are in use while the names are entered, one after the other. */
  function Reach(volume: string, comps: seq<string>, names: seq<string>): nat
    decreases |names|
  {
    var here := Bytes(Location(volume, comps));
    if names == [] then here
    else Max(here, match Enter(comps, names[0])
                   case Some(c) => Reach(volume, c, names[1..])
                   case None => if names[0] == ".." then 0 else here - 1 + Written(names[0], Room(comps)))
  }

  /** The most bytes that parsing a path writes. */
  function BufferUse(cwd: Location, path: CString): nat {
    var i := LabelLength(path);
    if path != [] && path[0] == '/' then Reach(cwd.volume, [], Names(path)[1..])
    else if !AllValid(path[..i]) then 0
    else if i < NameLength(path) then
      if i + 1 < NameLength(path) then 0 else Reach(path[..i], [], Names(path[i + 1..])[1..])
    else Reach(cwd.volume, cwd.comps, Names(path))
  }

  // ---------- The text-level parser ----------

  /** name_compare. */
  method NameCompare(a: CString, b: CString) returns (r: bool)
    ensures r <==> FirstName(a) == FirstName(b) && |FirstName(a)| < MAX_PATH
  {
    for i := 0 to MAX_PATH
      invariant i <= NameLength(a) && i <= NameLength(b) && a[..i] == b[..i]
    {
      if i == |a| || a[i] == '/' {
        return i == |b| || b[i] == '/';
      }
      if i == |b| || a[i] != b[i] {
        return false;
      }
    }
    return false;
  }

  /** Position k holds the last slash before the final character. */
  predicate LastSlash(out: string, k: int) {
    0 <= k < |out| - 1 && out[k] == '/' && forall i :: k < i < |out| - 1 ==> out[i] != '/'
  }

  /** The branch for "..": back to the slash before the last component; start is the position of the ':'. */
  method PopName(start: nat, out: string) returns (r: Option<string>)
    requires |out| >= 2 && start <= |out| - 2
    ensures r.None? <==> forall i :: start <= i < |out| - 1 ==> out[i] != '/'
    ensures r.Some? ==> LastSlash(out, |r.value| - 1) && r.value == out[..|r.value|]
  {
    var o := |out| - 2;
    while out[o] != '/'
      invariant start <= o < |out| - 1 && forall i :: o < i < |out| - 1 ==> out[i] != '/'
      decreases o
    {
      if o <= start { return None; }
      o := o - 1;
    }
    return Some(out[..o + 1]);
  }

  lemma NextCharacter(name: CString, k: nat)
    requires k < NameLength(name)
    ensures var n := FirstName(name); n[k] == name[k] && n[k..][0] == name[k] && n[k..][1..] == n[k + 1..]
  {
  }

  lemma WholeName(name: CString)
    ensures |FirstName(name)| == NameLength(name) && FirstName(name)[0..] == FirstName(name)
  {
  }

  /** The branch for other names: the characters one by one, then a slash; high is the number of bytes in use. */
  method PushName(start: nat, out: string, name: CString) returns (r: Option<string>, ghost high: nat)
    requires start < |out|
    ensures var n := FirstName(name);
            r == if AllValid(n) && (n == "" || |out| - 1 - start + |n| <= MAX_PATH - 2) then Some(out + n + "/")
            else None
    ensures high == if r.Some? then |r.value| + 1
      else |out| + Written(FirstName(name), MAX_PATH - 1 - |out| + start)
  {
    hide ValidChar;
    WholeName(name);
    var p, k := out, 0;
    ghost var n, room := FirstName(name), MAX_PATH - 1 - |out| + start;
    while !(k == |name| || name[k] == '/')
      invariant k <= NameLength(name) && p == out + name[..k] && AllValid(name[..k])
      invariant k == 0 || |out| - 1 - start + k <= MAX_PATH - 2
      invariant Written(n, room) == k + Written(n[k..], room - k)
      decreases |name| - k
    {
      NextCharacter(name, k);
      if !ValidChar(name[k]) || |p| - 1 - start >= MAX_PATH - 2 {
        return None, |p|;
      }
      p := p + [name[k]];
      k := k + 1;
    }
    return Some(p + "/"), |p| + 2;
  }

  lemma ValidNotSeparator(s: string)
    requires AllValid(s)
    ensures '/' !in s && ':' !in s && '\0' !in s
  {
  }

  /** In the text of a location with components, the last slash before the final one starts the last component. */
  lemma PopText(l: Location, out: string)
    requires LocationOk(l) && out == Render(l) + "/" && l.comps != []
    ensures var up := Location(l.volume, l.comps[..|l.comps|-1]);
            LastSlash(out, |Render(up)|) && out[..|Render(up)| + 1] == Render(up) + "/"
            && |Render(up)| >= |l.volume| && LocationOk(up)
  {
    var n := |l.comps| - 1;
    var up := Location(l.volume, l.comps[..n]);
    ValidNotSeparator(l.comps[n]);
    assert Render(l) == Render(up) + "/" + l.comps[n];
    assert CompsOk(up.comps) by {
      forall k | 0 <= k < n ensures IsComponent(up.comps[k]) && CanPush(up.comps[..k], up.comps[k]) {
        assert up.comps[..k] == l.comps[..k];
      }
    }
  }

  /** The text of a location without components has no slash from the ':' on. */
  lemma RootText(l: Location)
    requires l.comps == []
    ensures Render(l) == l.volume + ":" && Render(l) + "/" == l.volume + ":/"
  {
  }

  lemma PushText(l: Location, name: string)
    ensures Render(Location(l.volume, l.comps + [name])) == Render(l) + "/" + name
  {
    assert (l.comps + [name])[..|l.comps|] == l.comps;
    assert Slashed(l.comps + [name]) == Slashed(l.comps) + "/" + name;
    assert l.volume + ":" + (Slashed(l.comps) + "/" + name) == l.volume + ":" + Slashed(l.comps) + "/" + name;
  }

  lemma PushOk(l: Location, name: string)
    requires LocationOk(l) && CanPush(l.comps, name) && name != "." && name != ".."
    ensures LocationOk(Location(l.volume, l.comps + [name]))
  {
    var c := l.comps + [name];
    forall k | 0 <= k < |c| ensures IsComponent(c[k]) && CanPush(c[..k], c[k]) {
      if k < |l.comps| { assert c[..k] == l.comps[..k]; } else { assert c[..k] == l.comps; }
    }
  }

  /** One turn of the loop of vfs_make_canonical: the text follows the stack.  Bare text has no slash after the ':'
      yet. */
  method EnterName(ghost l: Location, ghost bare: bool, start: nat, out: string, name: CString)
    returns (r: Option<string>, ghost l': Location, ghost high: nat)
    requires LocationOk(l) && start == |l.volume|
    requires if bare then l.comps == [] && out == Render(l) && FirstName(name) == "" else out == Render(l) + "/"
    ensures bare ==> l' == l && r == Some(Render(l) + "/")
    ensures !bare ==>
      match Enter(l.comps, FirstName(name))
      case None => r == None
      case Some(c) => l' == Location(l.volume, c) && LocationOk(l') && r == Some(Render(l') + "/")
    ensures high == if r.Some? then Bytes(l') else if FirstName(name) == ".." then 0
      else Bytes(l) - 1 + Written(FirstName(name), Room(l.comps))
  {
    hide Render, LocationOk, CanPush, FirstName, Written, Room;
    var dot := NameCompare(name, ".");
    var dots := NameCompare(name, "..");
    DotNames();
    if dot {
      r, l', high := Some(out), l, |out| + 1;
    } else if dots {
      r, l' := EnterParent(l, start, out);
      high := if r.Some? then |r.value| + 1 else 0;
    } else {
      r, l', high := EnterChild(l, bare, start, out, name);
    }
  }

  lemma DotNames()
    ensures FirstName(".") == "." && FirstName("..") == ".."
  {
  }

  method EnterParent(ghost l: Location, start: nat, out: string) returns (r: Option<string>, ghost l': Location)
    requires LocationOk(l) && start == |l.volume| && out == Render(l) + "/"
    ensures if l.comps == [] then r == None
            else l' == Location(l.volume, l.comps[..|l.comps|-1]) && LocationOk(l') && r == Some(Render(l') + "/")
  {
    l' := l;
    TextLength(l);
    r := PopName(start, out);
    if l.comps == [] {
      RootText(l);
    } else {
      PopText(l, out);
      l' := Location(l.volume, l.comps[..|l.comps|-1]);
      hide Render, LocationOk;
      SlashUnique(out, start, |Render(l')|, r);
    }
  }

  method EnterChild(ghost l: Location, ghost bare: bool, start: nat, out: string, name: CString)
    returns (r: Option<string>, ghost l': Location, ghost high: nat)
    requires LocationOk(l) && start == |l.volume| && FirstName(name) != "." && FirstName(name) != ".."
    requires if bare then l.comps == [] && out == Render(l) && FirstName(name) == "" else out == Render(l) + "/"
    ensures bare ==> l' == l && r == Some(Render(l) + "/")
    ensures !bare ==>
      if CanPush(l.comps, FirstName(name)) then
        l' == Location(l.volume, l.comps + [FirstName(name)]) && LocationOk(l') && r == Some(Render(l') + "/")
      else r == None
    ensures high == if r.Some? then |r.value| + 1 else |Render(l)| + 1 + Written(FirstName(name), Room(l.comps))
  {
    l' := l;
    TextLength(l);
    PushText(l, FirstName(name));
    hide Render, LocationOk, FirstName, Written;
    r, high := PushName(start, out, name);
    if r.Some? && !bare {
      PushOk(l, FirstName(name));
      l' := Location(l.volume, l.comps + [FirstName(name)]);
    }
    assert bare ==> out + FirstName(name) + "/" == Render(l) + "/";
  }

  lemma TextLength(l: Location)
    ensures |Render(l)| == |l.volume| + 1 + |Slashed(l.comps)|
  {
  }

  lemma SlashUnique(out: string, start: nat, k: nat, r: Option<string>)
    requires LastSlash(out, k) && start <= k
    requires r.None? ==> forall i :: start <= i < |out| - 1 ==> out[i] != '/'
    requires r.Some? ==> LastSlash(out, |r.value| - 1) && r.value == out[..|r.value|]
    ensures r == Some(out[..k + 1])
  {
  }

  /** Folding over the names of a path, one name at a time. */
  lemma FoldNames(comps: seq<string>, path: CString)
    ensures Fold(comps, Names(path)) ==
      match Enter(comps, FirstName(path))
      case None => None
      case Some(c) => if NameLength(path) + 1 >= |path| then Some(c) else Fold(c, Names(path[NameLength(path) + 1..]))
  {
    hide Enter, Names;
    NamesTail(path);
  }

  lemma NamesTail(path: CString)
    ensures var n := NameLength(path); Names(path)[1..] == if n + 1 >= |path| then [] else Names(path[n + 1..])
  {
    hide NameLength, Names;
    NamesCases(path);
  }

  lemma NamesCases(path: CString)
    ensures var n := NameLength(path);
      Names(path) == if n + 1 >= |path| then [path[..n]] else [path[..n]] + Names(path[n + 1..])
  {
    hide NameLength;
  }

  lemma RootNames(path: CString)
    ensures Fold([], Names(path)[1..]) ==
      if NameLength(path) + 1 >= |path| then Some([]) else Fold([], Names(path[NameLength(path) + 1..]))
  {
    NamesTail(path);
    hide Names;
  }

  /** What the rest of a path does to the use of the buffer. */
  lemma ReachNames(volume: string, comps: seq<string>, path: CString)
    ensures var here := Bytes(Location(volume, comps)); var n := NameLength(path);
            Reach(volume, comps, Names(path)) ==
            Max(here, match Enter(comps, FirstName(path))
                      case None => if FirstName(path) == ".." then 0
                                   else here - 1 + Written(FirstName(path), Room(comps))
                      case Some(c) => if n + 1 >= |path| then Bytes(Location(volume, c))
                                      else Reach(volume, c, Names(path[n + 1..])))
  {
    hide Enter, Names, Written, Room;
    NamesTail(path);
  }

  lemma RootReach(volume: string, path: CString)
    ensures Reach(volume, [], Names(path)[1..]) ==
      if NameLength(path) + 1 >= |path| then Bytes(Location(volume, []))
      else Reach(volume, [], Names(path[NameLength(path) + 1..]))
  {
    NamesTail(path);
    hide Names;
  }

  lemma ReachHere(volume: string, comps: seq<string>, names: seq<string>)
    ensures Reach(volume, comps, names) >= Bytes(Location(volume, comps))
  {
  }

  /** vfs_make_canonical, from text that stops at the ':' (bare) or at the slash after location l, with used bytes of
      the buffer in use. */
  method MakeCanonical(ghost l: Location, ghost bare: bool, start: nat, out: string, path: CString, ghost used: nat)
    returns (r: Option<string>, ghost high: nat)
    requires LocationOk(l) && start == |l.volume| && if bare then used <= Bytes(l) else used == Bytes(l)
    requires if bare then l.comps == [] && out == Render(l) && FirstName(path) == "" else out == Render(l) + "/"
    ensures r == RenderOption(At(l.volume, if bare then Fold([], Names(path)[1..]) else Fold(l.comps, Names(path))))
    ensures high == if bare then Reach(l.volume, [], Names(path)[1..]) else Reach(l.volume, l.comps, Names(path))
  {
    hide Enter, LocationOk, Render, Names, Fold, Reach, Written, Room, Bytes;
    var o, name := out, path;
    ghost var here, b := l, bare;
    ghost var target := if bare then Fold([], Names(path)[1..]) else Fold(l.comps, Names(path));
    ghost var reach := if bare then Reach(l.volume, [], Names(path)[1..]) else Reach(l.volume, l.comps, Names(path));
    high := used;
    RootReach(l.volume, path);
    if bare { ReachHere(l.volume, [], Names(path)[1..]); } else { ReachHere(l.volume, l.comps, Names(path)); }
    while true
      invariant LocationOk(here) && here.volume == l.volume
      invariant if b then here.comps == [] && o == Render(here) && FirstName(name) == "" else o == Render(here) + "/"
      invariant target == if b then Fold([], Names(name)[1..]) else Fold(here.comps, Names(name))
      invariant b ==> high <= Bytes(here)
      invariant !b ==> high >= Bytes(here)
      invariant reach == Max(high, if b then Reach(here.volume, [], Names(name)[1..])
                                   else Reach(here.volume, here.comps, Names(name)))
      decreases |name|
    {
      ghost var next, bytes;
      FoldNames(here.comps, name);
      RootNames(name);
      ReachNames(here.volume, here.comps, name);
      RootReach(here.volume, name);
      if b { ReachHere(here.volume, [], Names(name)[1..]); }
      r, next, bytes := EnterName(here, b, start, o, name);
      high := Max(high, bytes);
      if r.None? { return None, high; }
      o, here, b := r.value, next, false;
      var n := NameLength(name);
      if n + 1 >= |name| {
        return Some(o[..|o| - 1]), high;
      }
      ReachHere(here.volume, here.comps, Names(name[n + 1..]));
      name := name[n + 1..];
    }
  }

  /** The position of the ':' in the text of a working directory. */
  method FindLabel(ghost l: Location, cwd: string) returns (n: nat)
    requires LocationOk(l) && cwd == Render(l)
    ensures n == |l.volume| && cwd[..n] == l.volume
  {
    ValidNotSeparator(l.volume);
    assert cwd[|l.volume|] == ':';
    n := 0;
    while cwd[n] != ':'
      invariant n <= |l.volume|
      decreases |l.volume| - n
    {
      n := n + 1;
    }
  }

  /** vfs_parse_path: on the text of every well-formed working directory, the parser computes Resolve, and writes as
      many bytes of the output buffer as BufferUse says. */
  method ParsePath(ghost l: Location, cwd: string, path: CString) returns (r: Option<string>, ghost high: nat)
    requires LocationOk(l) && cwd == Render(l)
    ensures r == RenderOption(Resolve(l, path)) && high == BufferUse(l, path)
  {
    hide Fold, Names, Reach;
    var labelLength := FindLabel(l, cwd);
    if path != [] && path[0] == '/' {
      RootText(Location(l.volume, []));
      hide Render;
      r, high := MakeCanonical(Location(l.volume, []), true, labelLength, cwd[..labelLength] + ":", path,
                               labelLength + 2);
      return;
    }
    var i, absolute := ScanLabel(path);
    if i.None? { return None, 0; }
    var n := i.value;
    hide NameLength, LabelLength, AllValid, Render;
    if absolute {
      RootText(Location(path[..n], []));
      r, high := MakeCanonical(Location(path[..n], []), true, n, path[..n] + ":", path[n + 1..], n + 3);
    } else {
      r, high := MakeCanonical(l, false, labelLength, cwd + "/", path, |cwd| + 2);
    }
  }

  /** The loop of vfs_parse_path over the first name: None if it is rejected, else where the loop stopped and whether
      at a ':'. */
  method ScanLabel(path: CString) returns (r: Option<nat>, absolute: bool)
    ensures r.None? <==> !AllValid(path[..LabelLength(path)]) || LabelLength(path) + 1 < NameLength(path)
    ensures r.Some? ==> r.value == LabelLength(path) && (absolute <==> LabelLength(path) < NameLength(path))
    ensures r.Some? && absolute ==> FirstName(path[LabelLength(path) + 1..]) == ""
  {
    hide ValidChar;
    var i := 0;
    while !(i == |path| || path[i] == '/')
      invariant i <= LabelLength(path) && AllValid(path[..i])
      decreases |path| - i
    {
      if path[i] == ':' {
        if !(i + 1 == |path| || path[i + 1] == '/') {
          return None, true;
        }
        return Some(i), true;
      } else if !ValidChar(path[i]) {
        assert path[..LabelLength(path)][i] == path[i];
        return None, false;
      }
      i := i + 1;
    }
    return Some(i), false;
  }

  // ---------- Reachable working directories ----------

  lemma {:induction false} FoldOk(volume: string, comps: seq<string>, names: seq<string>)
    requires LocationOk(Location(volume, comps)) && Fold(comps, names).Some?
    ensures LocationOk(Location(volume, Fold(comps, names).value))
    decreases |names|
  {
    if names != [] {
      var c := Enter(comps, names[0]).value;
      if names[0] == ".." {
        PopText(Location(volume, comps), Render(Location(volume, comps)) + "/");
      } else if names[0] != "." {
        PushOk(Location(volume, comps), names[0]);
      }
      FoldOk(volume, c, names[1..]);
    }
  }

  lemma ResolveOk(cwd: Location, path: CString)
    requires LocationOk(cwd) && Resolve(cwd, path).Some?
    ensures LocationOk(Resolve(cwd, path).value)
  {
    hide Fold, Names;
    var i := LabelLength(path);
    if path != [] && path[0] == '/' {
      FoldOk(cwd.volume, [], Names(path)[1..]);
    } else if i < NameLength(path) {
      FoldOk(path[..i], [], Names(path[i + 1..])[1..]);
    } else {
      FoldOk(cwd.volume, cwd.comps, Names(path));
    }
  }

  /** A request to change directory, and whether the volume confirmed that it is a directory. */
  datatype Chdir = Chdir(path: CString, confirmed: bool)

  const INITIAL := Location("sys", [])

  /** The working directory of a process after a series of requests. */
  function CwdAfter(requests: seq<Chdir>): Location {
    if requests == [] then INITIAL
    else
      var cwd, last := CwdAfter(requests[..|requests|-1]), requests[|requests|-1];
      if last.confirmed && Resolve(cwd, last.path).Some? then Resolve(cwd, last.path).value else cwd
  }

  /** Every reachable working directory is well formed, so that its text is a label, ':' and slash-led components. */
  lemma {:induction false} ReachableCwdOk(requests: seq<Chdir>)
    ensures LocationOk(CwdAfter(requests))
  {
    if requests == [] {
      assert AllValid("sys");
    } else {
      var cwd, last := CwdAfter(requests[..|requests|-1]), requests[|requests|-1];
      ReachableCwdOk(requests[..|requests|-1]);
      if Resolve(cwd, last.path).Some? { ResolveOk(cwd, last.path); }
    }
  }

  /** Requests that were not confirmed make no difference. */
  function Confirmed(requests: seq<Chdir>): seq<Chdir> {
    if requests == [] then []
    else
      var rest, last := Confirmed(requests[..|requests|-1]), requests[|requests|-1];
      if last.confirmed then rest + [last] else rest
  }

  lemma {:induction false} OnlyConfirmedCount(requests: seq<Chdir>)
    ensures CwdAfter(requests) == CwdAfter(Confirmed(requests))
  {
    if requests != [] {
      var rest, last := Confirmed(requests[..|requests|-1]), requests[|requests|-1];
      OnlyConfirmedCount(requests[..|requests|-1]);
      assert (rest + [last])[..|rest|] == rest;
    }
  }

  lemma SlashedChars(comps: seq<string>)
    requires CompsOk(comps)
    ensures ':' !in Slashed(comps) && '\0' !in Slashed(comps)
  {
    forall k | 0 <= k < |comps| ensures ':' !in comps[k] && '\0' !in comps[k] { ValidNotSeparator(comps[k]); }
    SlashedWithout(comps, ':');
    SlashedWithout(comps, '\0');
  }

  lemma {:induction false} SlashedWithout(comps: seq<string>, c: char)
    requires c != '/' && forall k :: 0 <= k < |comps| ==> c !in comps[k]
    ensures c !in Slashed(comps)
    decreases |comps|
  {
    if comps != [] { SlashedWithout(comps[..|comps|-1], c); }
  }

  /** The text of a well-formed location holds exactly one ':', right after the label. */
  lemma OneColon(l: Location, i: nat)
    requires LocationOk(l) && i < |Render(l)|
    ensures Render(l)[i] == ':' <==> i == |l.volume|
    ensures '\0' !in Render(l)
  {
    ValidNotSeparator(l.volume);
    SlashedChars(l.comps);
  }

  // ---------- Parsing a canonical path again ----------

  /** The components without one trailing empty one. */
  function Trim(comps: seq<string>): seq<string> {
    if comps != [] && comps[|comps|-1] == "" then comps[..|comps|-1] else comps
  }

  lemma SlashedBack(comps: seq<string>)
    requires comps != []
    ensures Slashed(comps) == Slashed(comps[..|comps|-1]) + "/" + comps[|comps|-1]
  {
  }

  lemma {:induction false} SlashedFront(comps: seq<string>)
    requires comps != []
    ensures Slashed(comps) == "/" + comps[0] + Slashed(comps[1..])
    decreases |comps|
  {
    var n := |comps| - 1;
    if n == 0 {
      assert comps[..0] == [] && comps[1..] == [];
      assert Slashed([]) == "";
    } else {
      hide Slashed;
      SlashedBack(comps);
      SlashedBack(comps[1..]);
      SlashedFront(comps[..n]);
      assert comps[..n][1..] == comps[1..][..n - 1];
      assert ("/" + comps[0] + Slashed(comps[..n][1..])) + "/" + comps[n]
          == "/" + comps[0] + (Slashed(comps[..n][1..]) + "/" + comps[n]);
    }
  }

  lemma {:induction false} NameLengthIs(name: string, rest: string)
    requires '/' !in name && '\0' !in name + rest && (rest == "" || rest[0] == '/')
    ensures NameLength(name + rest) == |name|
    decreases |name|
  {
    if name != "" {
      assert (name + rest)[1..] == name[1..] + rest;
      assert '\0' !in name[1..] + rest;
      NameLengthIs(name[1..], rest);
    }
  }

  /** Parts that hold no slash and no NUL. */
  predicate Plain(comps: seq<string>) { forall k :: 0 <= k < |comps| ==> '/' !in comps[k] && '\0' !in comps[k] }

  lemma PlainText(comps: seq<string>)
    requires Plain(comps)
    ensures '\0' !in Slashed(comps)
  {
    SlashedWithout(comps, '\0');
  }

  /** Splitting text at its slashes gives back the parts it was made of, less one trailing empty part. */
  lemma {:induction false} NamesOfText(name: string, comps: seq<string>)
    requires '/' !in name && '\0' !in name && Plain(comps)
    ensures '\0' !in name + Slashed(comps) && Names(name + Slashed(comps)) == [name] + Trim(comps)
    decreases |comps|
  {
    PlainText(comps);
    var text := name + Slashed(comps);
    if comps == [] {
      NameLengthIs(name, "");
      assert text == name + "";
    } else {
      SlashedFront(comps);
      PlainText(comps[1..]);
      NameLengthIs(name, Slashed(comps));
      var rest := comps[0] + Slashed(comps[1..]);
      assert text[|name| + 1..] == rest;
      assert text[..|name|] == name;
      if rest == "" {
        EmptyText(comps);
        assert Trim(comps) == [];
      } else {
        NamesOfText(comps[0], comps[1..]);
        NotEmptyTrim(comps);
      }
    }
  }

  lemma EmptyText(comps: seq<string>)
    requires comps != [] && comps[0] + Slashed(comps[1..]) == ""
    ensures comps == [""]
  {
  }

  lemma NotEmptyTrim(comps: seq<string>)
    requires comps != [] && comps[0] + Slashed(comps[1..]) != ""
    ensures Trim(comps) == [comps[0]] + Trim(comps[1..])
  {
    if |comps| == 1 {
      assert comps[1..] == [] && Slashed([]) == "";
    } else {
      assert comps[1..][|comps| - 2] == comps[|comps| - 1];
    }
  }

  /** Components that could be pushed one after the other are rebuilt by pushing them again. */
  lemma {:induction false} FoldRebuilds(comps: seq<string>, k: nat)
    requires CompsOk(comps) && k <= |comps|
    ensures Fold(comps[..k], comps[k..]) == Some(comps)
    decreases |comps| - k
  {
    if k == |comps| {
      assert comps[..k] == comps && comps[k..] == [];
    } else {
      assert IsComponent(comps[k]) && CanPush(comps[..k], comps[k]);
      assert Enter(comps[..k], comps[k]) == Some(comps[..k] + [comps[k]]);
      hide Fold, Enter;
      assert comps[..k] + [comps[k]] == comps[..k + 1] && comps[k..] == [comps[k]] + comps[k + 1..];
      FoldCons(comps[..k], comps[k], comps[k + 1..]);
      FoldRebuilds(comps, k + 1);
    }
  }

  lemma FoldCons(comps: seq<string>, name: string, names: seq<string>)
    ensures Fold(comps, [name] + names) == match Enter(comps, name) case None => None case Some(c) => Fold(c, names)
  {
    hide Enter;
    assert ([name] + names)[1..] == names;
  }

  lemma TrimOk(comps: seq<string>)
    requires CompsOk(comps)
    ensures CompsOk(Trim(comps)) && Plain(comps) && Fold([], Trim(comps)) == Some(Trim(comps))
  {
    var t := Trim(comps);
    forall k | 0 <= k < |t| ensures IsComponent(t[k]) && CanPush(t[..k], t[k]) {
      assert t[..k] == comps[..k] && t[k] == comps[k];
    }
    FoldRebuilds(t, 0);
    assert t[..0] == [] && t[0..] == t;
    forall k | 0 <= k < |comps| ensures '/' !in comps[k] && '\0' !in comps[k] {
      ValidNotSeparator(comps[k]);
    }
  }

  /** Under every working directory, parsing a canonical path again drops one trailing empty component and nothing
      else. */
  lemma ResolveAgain(cwd: Location, l: Location)
    requires LocationOk(l)
    ensures '\0' !in Render(l) && Resolve(cwd, Render(l)) == Some(Location(l.volume, Trim(l.comps)))
  {
    var text := Render(l);
    SlashedChars(l.comps);
    ValidNotSeparator(l.volume);
    TrimOk(l.comps);
    assert '\0' !in text;
    if l.comps != [] { SlashedFront(l.comps); }
    NameLengthIs(l.volume + ":", Slashed(l.comps));
    LabelLengthIs(l.volume, Slashed(l.comps));
    assert text[..|l.volume|] == l.volume && text[|l.volume| + 1..] == Slashed(l.comps);
    NamesOfText("", l.comps);
    assert "" + Slashed(l.comps) == Slashed(l.comps);
    assert ([""] + Trim(l.comps))[1..] == Trim(l.comps);
  }

  lemma {:induction false} LabelLengthIs(volume: string, rest: string)
    requires '/' !in volume && ':' !in volume && '\0' !in volume + ":" + rest
    ensures LabelLength(volume + ":" + rest) == |volume|
    decreases |volume|
  {
    if volume != "" {
      assert (volume + ":" + rest)[1..] == volume[1..] + ":" + rest;
      assert '\0' !in volume[1..] + ":" + rest;
      LabelLengthIs(volume[1..], rest);
    }
  }

  lemma CanonicalIsFixedIff(cwd: Location, l: Location)
    requires LocationOk(l)
    ensures '\0' !in Render(l)
    ensures Resolve(cwd, Render(l)) == Some(l) <==> l.comps == [] || l.comps[|l.comps|-1] != ""
  {
    ResolveAgain(cwd, l);
  }

  // ---------- When a result is a fixed point ----------

  /** What stands last once a path is resolved: a name of the path, a component of the directory it starts from, or
      nothing. */
  datatype Survivor = Pushed(name: string) | Kept(index: nat) | Nothing

  /** Names are read from the last to the first; pending counts the ".." that still have a component to take away. */
  function LastOf(depth: nat, names: seq<string>, pending: nat): Survivor
    decreases |names|
  {
    if names == [] then (if pending < depth then Kept(depth - 1 - pending) else Nothing)
    else
      var rest, name := names[..|names|-1], names[|names|-1];
      if name == "." then LastOf(depth, rest, pending)
      else if name == ".." then LastOf(depth, rest, pending + 1)
      else if pending > 0 then LastOf(depth, rest, pending - 1)
      else Pushed(name)
  }

  /** Whether a path is read from the working directory, and not from the root of a volume. */
  predicate IsRelative(path: CString) {
    (path == [] || path[0] != '/') && LabelLength(path) == NameLength(path)
  }

  /** The names that a path goes through, after the slash of its root or label if it has one. */
  function Visited(path: CString): seq<string> {
    if IsRelative(path) then Names(path)
    else if path[0] == '/' then Names(path)[1..]
    else Names(path[LabelLength(path) + 1..])[1..]
  }

  function Start(cwd: Location, path: CString): seq<string> { if IsRelative(path) then cwd.comps else [] }

  /** The path ends in an empty name, or climbs back to an empty component of the working directory. */
  predicate EndsEmpty(cwd: Location, path: CString) {
    match LastOf(|Start(cwd, path)|, Visited(path), 0)
    case Pushed(name) => name == ""
    case Kept(k) => k < |Start(cwd, path)| && Start(cwd, path)[k] == ""
    case Nothing => false
  }

  lemma {:induction false} FoldSnoc(comps: seq<string>, names: seq<string>, name: string)
    ensures Fold(comps, names + [name]) == match Fold(comps, names) case None => None case Some(c) => Enter(c, name)
    decreases |names|
  {
    if names == [] {
      assert names + [name] == [name] + [];
      FoldCons(comps, name, []);
      assert Enter(comps, name).Some? ==> Fold(Enter(comps, name).value, []) == Enter(comps, name);
    } else {
      hide Enter;
      assert (names + [name])[1..] == names[1..] + [name];
      if Enter(comps, names[0]).Some? { FoldSnoc(Enter(comps, names[0]).value, names[1..], name); }
    }
  }

  /** Reading backwards finds the component that folding forwards leaves at each distance from the top. */
  lemma {:induction false} LastOfFold(start: seq<string>, names: seq<string>, pending: nat)
    requires Fold(start, names).Some?
    ensures var c := Fold(start, names).value;
            match LastOf(|start|, names, pending)
            case Pushed(name) => pending < |c| && c[|c|-1-pending] == name
            case Kept(k) => pending < |c| && k < |start| && c[|c|-1-pending] == start[k]
            case Nothing => pending >= |c|
    decreases |names|
  {
    if names != [] {
      var rest, name := names[..|names|-1], names[|names|-1];
      assert names == rest + [name];
      FoldSnoc(start, rest, name);
      if name == "." {
        LastOfFold(start, rest, pending);
      } else if name == ".." {
        LastOfFold(start, rest, pending + 1);
      } else if pending > 0 {
        LastOfFold(start, rest, pending - 1);
      }
    }
  }

  lemma ResolveIsFold(cwd: Location, path: CString)
    requires Resolve(cwd, path).Some?
    ensures Fold(Start(cwd, path), Visited(path)) == Some(Resolve(cwd, path).value.comps)
  {
    hide Fold, Names, NameLength, LabelLength, AllValid;
  }

  /** The first name of a path is a label and its ':'. */
  predicate Labelled(path: CString, volume: string) {
    FirstName(path) == volume + ":" && ':' !in volume && AllValid(volume)
  }

  /** Which volume a path leads to: the one of the working directory, unless its first name is a label of its own. */
  lemma VolumeIs(cwd: Location, path: CString)
    requires Resolve(cwd, path).Some?
    ensures var v := Resolve(cwd, path).value.volume;
            && (':' !in FirstName(path) ==> v == cwd.volume)
            && (':' in FirstName(path) ==> Labelled(path, v))
  {
    hide Fold, Names;
    var n, i := NameLength(path), LabelLength(path);
    assert n < |path| ==> path[n] == '/';
    if i < n {
      assert FirstName(path) == path[..i] + [path[i]];
    } else {
      assert FirstName(path) == path[..i];
    }
  }

  lemma LabelOf(path: CString, volume: string)
    requires FirstName(path) == volume + ":" && ':' !in volume
    ensures LabelLength(path) == |volume| && LabelLength(path) + 1 == NameLength(path)
    ensures volume == path[..LabelLength(path)]
  {
    var name := FirstName(path);
    assert name[|volume|] == ':' && name[..|volume|] == volume;
    assert forall k :: 0 <= k < |volume| ==> path[k] == volume[k] && path[k] != ':';
  }

  lemma LabelIs(path: CString, volume: string)
    ensures Labelled(path, volume) <==>
      && LabelLength(path) + 1 == NameLength(path) && volume == path[..LabelLength(path)] && AllValid(volume)
  {
    hide AllValid;
    var i := LabelLength(path);
    if FirstName(path) == volume + ":" && ':' !in volume { LabelOf(path, volume); }
    if i + 1 == NameLength(path) { assert FirstName(path) == path[..i] + ":"; }
  }

  lemma InvalidFirst(comps: seq<string>, path: CString)
    requires !AllValid(FirstName(path))
    ensures Fold(comps, Names(path)).None?
  {
    assert Names(path)[0] == FirstName(path);
    assert AllValid(".") && AllValid("..");
  }

  /** And when a path is turned down: when its first name holds a ':' but is no label, or when its names cannot be
      followed. */
  lemma ResolvesIff(cwd: Location, path: CString)
    ensures Resolve(cwd, path).Some? <==>
      && (':' in FirstName(path) ==> exists volume :: Labelled(path, volume))
      && Fold(Start(cwd, path), Visited(path)).Some?
  {
    var i, n := LabelLength(path), NameLength(path);
    assert ':' in FirstName(path) <==> i < n by {
      if i < n { assert FirstName(path)[i] == ':'; }
    }
    LabelIs(path, path[..i]);
    forall volume | Labelled(path, volume) ensures volume == path[..i] { LabelIs(path, volume); }
    if i == n {
      assert path[..i] == FirstName(path);
      if !AllValid(path[..i]) { InvalidFirst(Start(cwd, path), path); }
    }
    hide Fold, Names, Labelled, FirstName, AllValid;
  }

  // ---------- Which paths are rejected ----------

  /** How far a sequence of names leads down, less how far it leads up. */
  function Climb(names: seq<string>): int {
    if names == [] then 0
    else (if names[0] == "." then 0 else if names[0] == ".." then -1 else 1) + Climb(names[1..])
  }

  /** The names are valid, and short enough to be pushed one after the other. */
  predicate Fitting(start: seq<string>, names: seq<string>) {
    (forall k :: 0 <= k < |names| ==> AllValid(names[k])) && |Slashed(start)| + |Slashed(names)| < MAX_PATH - 2
  }

  /** Somewhere the names lead up more often than the directory they start from, and they themselves, lead down. */
  ghost predicate ClimbsOut(depth: nat, names: seq<string>) {
    exists k :: 0 <= k <= |names| && depth + Climb(names[..k]) < 0
  }

  lemma ClimbsOutFirst(depth: nat, names: seq<string>)
    requires names != []
    ensures var d := depth + Climb([names[0]]); ClimbsOut(depth, names) <==> d < 0 || ClimbsOut(d, names[1..])
  {
    forall k | 0 < k <= |names| ensures Climb(names[..k]) == Climb([names[0]]) + Climb(names[1..][..k - 1]) {
      assert names[..k][1..] == names[1..][..k - 1];
    }
    var d := depth + Climb([names[0]]);
    assert names[..1] == [names[0]];
    if d >= 0 && ClimbsOut(d, names[1..]) {
      var k :| 0 <= k <= |names[1..]| && d + Climb(names[1..][..k]) < 0;
      assert names[1..][..k] == names[1..][..k + 1 - 1];
      assert depth + Climb(names[..k + 1]) < 0;
    }
  }

  lemma EnterFits(start: seq<string>, names: seq<string>)
    requires names != [] && Fitting(start, names)
    ensures Enter(start, names[0]).None? <==> |start| + Climb([names[0]]) < 0
    ensures Enter(start, names[0]).Some? ==>
      var c := Enter(start, names[0]).value; |c| == |start| + Climb([names[0]]) && Fitting(c, names[1..])
  {
    SlashedFront(names);
    assert Climb([names[0]][1..]) == 0;
    if names[0] == ".." {
      if start != [] { SlashedBack(start); }
    } else if names[0] != "." {
      SlashedBack(start + [names[0]]);
      assert (start + [names[0]])[..|start|] == start;
    }
  }

  /** Names that fit are rejected exactly if they climb out, and otherwise lead as deep as they say. */
  lemma {:induction false} RejectedIff(start: seq<string>, names: seq<string>)
    requires Fitting(start, names)
    ensures Fold(start, names).None? <==> ClimbsOut(|start|, names)
    ensures Fold(start, names).Some? ==> |Fold(start, names).value| == |start| + Climb(names)
    decreases |names|
  {
    hide Enter, Fitting, ClimbsOut;
    if names == [] {
      NothingClimbs(|start|);
    } else {
      EnterFits(start, names);
      ClimbsOutFirst(|start|, names);
      assert Climb(names) == Climb([names[0]]) + Climb(names[1..]) by { assert Climb([names[0]][1..]) == 0; }
      if Enter(start, names[0]).Some? { RejectedIff(Enter(start, names[0]).value, names[1..]); }
    }
  }

  lemma NothingClimbs(depth: nat)
    ensures !ClimbsOut(depth, [])
  {
    var names: seq<string> := [];
    assert names[..0] == names;
  }

  /** A successful result is a fixed point, under every working directory, if and only if its path does not
      end empty. */
  lemma FixedPointIff(cwd: Location, path: CString, other: Location)
    requires LocationOk(cwd) && Resolve(cwd, path).Some?
    ensures var l := Resolve(cwd, path).value;
            '\0' !in Render(l) && (Resolve(other, Render(l)) == Some(l) <==> !EndsEmpty(cwd, path))
  {
    hide Resolve, Fold, LastOf, Visited, LocationOk, Render;
    var l := Resolve(cwd, path).value;
    ResolveOk(cwd, path);
    CanonicalIsFixedIff(other, l);
    ResolveIsFold(cwd, path);
    LastOfFold(Start(cwd, path), Visited(path), 0);
  }

  predicate NoEmpty(names: seq<string>) { forall k :: 0 <= k < |names| ==> names[k] != "" }

  lemma {:induction false} LastNotEmpty(depth: nat, names: seq<string>, pending: nat)
    requires NoEmpty(names)
    ensures LastOf(depth, names, pending) != Pushed("")
    ensures depth == 0 ==> !LastOf(depth, names, pending).Kept?
    decreases |names|
  {
    if names != [] {
      var rest := names[..|names|-1];
      LastNotEmpty(depth, rest, pending);
      LastNotEmpty(depth, rest, pending + 1);
      if pending > 0 { LastNotEmpty(depth, rest, pending - 1); }
    }
  }

  /** A path without empty names resolves to a fixed point without "." and "..", if it is not relative or no component
      of the working directory is empty; a relative one fails exactly if it climbs back to an empty component. */
  lemma NoEmptyNamesFixed(cwd: Location, path: CString, other: Location)
    requires LocationOk(cwd) && NoEmpty(Visited(path)) && Resolve(cwd, path).Some?
    ensures var l := Resolve(cwd, path).value;
            '\0' !in Render(l) && "." !in l.comps && ".." !in l.comps
    ensures var l := Resolve(cwd, path).value; var last := LastOf(|cwd.comps|, Visited(path), 0);
            Resolve(other, Render(l)) != Some(l) <==>
            IsRelative(path) && last.Kept? && last.index < |cwd.comps| && cwd.comps[last.index] == ""
  {
    FixedPointIff(cwd, path, other);
    LastNotEmpty(|Start(cwd, path)|, Visited(path), 0);
    ResolveOk(cwd, path);
    hide Resolve, Visited, LastOf;
  }

  lemma {:induction false} FoldNoEmpty(comps: seq<string>, names: seq<string>)
    requires NoEmpty(comps) && NoEmpty(names) && Fold(comps, names).Some?
    ensures NoEmpty(Fold(comps, names).value)
    decreases |names|
  {
    if names != [] { FoldNoEmpty(Enter(comps, names[0]).value, names[1..]); }
  }

  /** A process that only ever changed directory along paths without empty names is in a directory without empty
      components. */
  lemma {:induction false} CwdNoEmpty(requests: seq<Chdir>)
    requires forall k :: 0 <= k < |requests| ==> NoEmpty(Visited(requests[k].path))
    ensures NoEmpty(CwdAfter(requests).comps)
  {
    if requests != [] {
      var cwd, path := CwdAfter(requests[..|requests|-1]), requests[|requests|-1].path;
      CwdNoEmpty(requests[..|requests|-1]);
      assert NoEmpty(Visited(path));
      if Resolve(cwd, path).Some? {
        ResolveIsFold(cwd, path);
        FoldNoEmpty(Start(cwd, path), Visited(path));
      }
    }
  }

  /** Without empty names anywhere in its history, a process sees only fixed points. */
  lemma NoEmptyHistoryFixed(requests: seq<Chdir>, path: CString, other: Location)
    requires (forall k :: 0 <= k < |requests| ==> NoEmpty(Visited(requests[k].path))) && NoEmpty(Visited(path))
    requires Resolve(CwdAfter(requests), path).Some?
    ensures var l := Resolve(CwdAfter(requests), path).value; '\0' !in Render(l) && Resolve(other, Render(l)) == Some(l)
  {
    var cwd := CwdAfter(requests);
    ReachableCwdOk(requests);
    CwdNoEmpty(requests);
    hide CwdAfter;
    NoEmptyNamesFixed(cwd, path, other);
  }

  // ---------- When the output buffer is large enough ----------

  /** The text of a location on the way and of what a name that is refused leaves. */
  ghost predicate TextsFit(volume: string, start: seq<string>, names: seq<string>) {
    && (forall k :: 0 <= k <= |names| && Fold(start, names[..k]).Some? ==>
          Bytes(Location(volume, Fold(start, names[..k]).value)) <= MAX_PATH)
    && (forall k :: 0 <= k < |names| && Fold(start, names[..k]).Some? ==>
          RefusedFits(volume, Fold(start, names[..k]).value, names[k]))
  }

  predicate RefusedFits(volume: string, comps: seq<string>, name: string) {
    Enter(comps, name).Some? || name == ".." ||
    Bytes(Location(volume, comps)) - 1 + Written(name, Room(comps)) <= MAX_PATH
  }

  lemma {:induction false} ReachFits(volume: string, start: seq<string>, names: seq<string>)
    ensures Reach(volume, start, names) <= MAX_PATH <==> TextsFit(volume, start, names)
    decreases |names|
  {
    hide Enter, Written, Room, Bytes, RefusedFits;
    FitsFirst(volume, start, names);
    if names != [] {
      RefusedIs(volume, start, names[0]);
      if Enter(start, names[0]).Some? {
        ReachFits(volume, Enter(start, names[0]).value, names[1..]);
      }
    }
  }

  lemma RefusedIs(volume: string, comps: seq<string>, name: string)
    ensures RefusedFits(volume, comps, name) <==>
      Enter(comps, name).Some? || name == ".." ||
      Bytes(Location(volume, comps)) - 1 + Written(name, Room(comps)) <= MAX_PATH
    ensures Bytes(Location(volume, comps)) >= 2
  {
  }

  /** Whether all texts fit, by the first name. */
  lemma FitsFirst(volume: string, start: seq<string>, names: seq<string>)
    ensures TextsFit(volume, start, names) <==>
      && Bytes(Location(volume, start)) <= MAX_PATH
      && (names != [] ==>
            && RefusedFits(volume, start, names[0])
            && (Enter(start, names[0]).Some? ==> TextsFit(volume, Enter(start, names[0]).value, names[1..])))
  {
    hide Enter, RefusedFits, Bytes;
    assert names[..0] == [];
    if names != [] {
      forall k: nat | 0 < k <= |names|
        ensures Fold(start, names[..k]) ==
          match Enter(start, names[0]) case None => None case Some(c) => Fold(c, names[1..][..k - 1])
      {
        assert names[..k] == [names[0]] + names[1..][..k - 1];
        FoldCons(start, names[0], names[1..][..k - 1]);
      }
      FitsRest(volume, start, names);
    }
  }

  lemma FitsRest(volume: string, start: seq<string>, names: seq<string>)
    requires names != []
    requires forall k: nat :: 0 < k <= |names| ==>
      Fold(start, names[..k]) ==
      match Enter(start, names[0]) case None => None case Some(c) => Fold(c, names[1..][..k - 1])
    ensures TextsFit(volume, start, names) <==>
      && Bytes(Location(volume, start)) <= MAX_PATH && RefusedFits(volume, start, names[0])
      && (Enter(start, names[0]).Some? ==> TextsFit(volume, Enter(start, names[0]).value, names[1..]))
  {
    hide Enter, RefusedFits, Bytes, Fold;
    FoldNothing(start);
    assert names[..0] == [];
    if Enter(start, names[0]).Some? {
      var c, rest := Enter(start, names[0]).value, names[1..];
      forall k: nat | k <= |rest| ensures Fold(c, rest[..k]) == Fold(start, names[..k + 1]) {
      }
      forall k: nat | k < |rest| ensures rest[k] == names[k + 1] {
      }
      var first := Bytes(Location(volume, start)) <= MAX_PATH && RefusedFits(volume, start, names[0]);
      if TextsFit(volume, c, rest) && first {
        forall k: nat | k <= |names| && Fold(start, names[..k]).Some?
          ensures Bytes(Location(volume, Fold(start, names[..k]).value)) <= MAX_PATH
        {
          if k > 0 { assert Fold(c, rest[..k - 1]) == Fold(start, names[..k]); }
        }
        forall k: nat | k < |names| && Fold(start, names[..k]).Some?
          ensures RefusedFits(volume, Fold(start, names[..k]).value, names[k])
        {
          if k > 0 { assert Fold(c, rest[..k - 1]) == Fold(start, names[..k]); }
        }
      }
    }
  }

  lemma FoldNothing(start: seq<string>)
    ensures Fold(start, []) == Some(start)
  {
  }

  /** The first name does not spoil the label: nothing is written otherwise. */
  predicate LabelOk(path: CString) {
    (path != [] && path[0] == '/') || (AllValid(path[..LabelLength(path)]) && LabelLength(path) + 1 >= NameLength(path))
  }

  function VolumeOf(cwd: Location, path: CString): string {
    if IsRelative(path) || path[0] == '/' then cwd.volume else path[..LabelLength(path)]
  }

  lemma UseIsReach(cwd: Location, path: CString)
    ensures BufferUse(cwd, path) ==
      if LabelOk(path) then Reach(VolumeOf(cwd, path), Start(cwd, path), Visited(path)) else 0
  {
    hide Reach, Names, AllValid;
  }

  /** The buffer of MAX_PATH bytes is enough if and only if every text on the way fits into it with a slash and a NUL,
      and so does the part of a refused name that is written before it is refused. */
  lemma BufferFitsIff(cwd: Location, path: CString)
    ensures BufferUse(cwd, path) <= MAX_PATH <==>
      (LabelOk(path) ==> TextsFit(VolumeOf(cwd, path), Start(cwd, path), Visited(path)))
  {
    UseIsReach(cwd, path);
    hide BufferUse, Reach, TextsFit, Visited, Start, VolumeOf, LabelOk;
    ReachFits(VolumeOf(cwd, path), Start(cwd, path), Visited(path));
  }

  /** The characters of names, with a slash for each. */
  function TotalLength(names: seq<string>): nat {
    if names == [] then 0 else |names[0]| + 1 + TotalLength(names[1..])
  }

  lemma {:induction false} NamesLength(path: CString)
    ensures TotalLength(Names(path)) <= |path| + 1
    ensures TotalLength(Names(path)[1..]) == TotalLength(Names(path)) - NameLength(path) - 1
    decreases |path|
  {
    var n := NameLength(path);
    NamesCases(path);
    hide NameLength;
    if n + 1 < |path| { NamesLength(path[n + 1..]); }
  }

  lemma PopIsShorter(volume: string, comps: seq<string>)
    requires comps != []
    ensures Bytes(Location(volume, comps[..|comps|-1])) <= Bytes(Location(volume, comps))
  {
  }

  lemma {:induction false} ReachBound(volume: string, comps: seq<string>, names: seq<string>)
    ensures Reach(volume, comps, names) <= Bytes(Location(volume, comps)) + TotalLength(names)
    decreases |names|
  {
    if names != [] {
      PushText(Location(volume, comps), names[0]);
      if names[0] == ".." && comps != [] { PopIsShorter(volume, comps); }
      hide Render, CanPush, Written, Room;
      if Enter(comps, names[0]).Some? { ReachBound(volume, Enter(comps, names[0]).value, names[1..]); }
    }
  }

  /** A condition on lengths alone that is enough. */
  lemma ShortFits(cwd: Location, path: CString)
    requires |Render(cwd)| + |path| + 3 <= MAX_PATH
    ensures BufferUse(cwd, path) <= MAX_PATH
  {
    hide Reach, Names, TotalLength, AllValid;
    var i := LabelLength(path);
    if path != [] && path[0] == '/' {
      NamesLength(path);
      ReachBound(cwd.volume, [], Names(path)[1..]);
      RootText(Location(cwd.volume, []));
    } else if i < NameLength(path) {
      NamesLength(path[i + 1..]);
      ReachBound(path[..i], [], Names(path[i + 1..])[1..]);
      RootText(Location(path[..i], []));
    } else {
      NamesLength(path);
      ReachBound(cwd.volume, cwd.comps, Names(path));
    }
  }

  function Slashes(n: nat): (s: CString)
    ensures |s| == n && forall i :: 0 <= i < n ==> s[i] == '/'
  {
    if n == 0 then "" else "/" + Slashes(n - 1)
  }

  function Empties(n: nat): seq<string> { if n == 0 then [] else [""] + Empties(n - 1) }

  lemma {:induction false} NamesOfSlashes(n: nat)
    requires n > 0
    ensures Names(Slashes(n)) == Empties(n)
  {
    var path := Slashes(n);
    assert NameLength(path) == 0 && path[..0] == "";
    assert path[1..] == Slashes(n - 1);
    hide NameLength;
    NamesCases(path);
    if n > 1 {
      NamesOfSlashes(n - 1);
    } else {
      assert Empties(0) == [];
    }
  }

  lemma {:induction false} ReachOfEmpties(volume: string, comps: seq<string>, n: nat)
    ensures Reach(volume, comps, Empties(n)) == Bytes(Location(volume, comps)) + n
    ensures Fold(comps, Empties(n)).Some?
    decreases n
  {
    if n > 0 {
      PushText(Location(volume, comps), "");
      assert AllValid("");
      assert Enter(comps, "") == Some(comps + [""]);
      hide Enter, Render;
      assert Empties(n)[1..] == Empties(n - 1);
      ReachOfEmpties(volume, comps + [""], n - 1);
    }
  }

  /** Empty names are pushed without a test: a path of n slashes is accepted, whatever n is, and writes n + 5 bytes from
      the initial working directory.  With 300 slashes that is 305. */
  lemma SlashesOverrun(n: nat)
    requires n > 0
    ensures Resolve(INITIAL, Slashes(n)).Some? && BufferUse(INITIAL, Slashes(n)) == n + 5
  {
    NamesOfSlashes(n);
    assert Empties(n)[1..] == Empties(n - 1);
    ReachOfEmpties("sys", [], n - 1);
    RootText(Location("sys", []));
    hide Names, Reach, Fold, Empties;
  }

  /** The test counts from the ':', and so leaves the label and the last slash out: a single name fits from the initial
      working directory if and only if it has at most 249 characters, although up to 253 are accepted. */
  lemma LongNameOverrun(name: CString)
    requires AllValid(name) && name != "" && name != "." && name != ".."
    ensures BufferUse(INITIAL, name) <= MAX_PATH <==> |name| <= 249
    ensures Resolve(INITIAL, name).Some? <==> |name| <= 253
  {
    ValidNotSeparator(name);
    NameLengthIs(name, "");
    assert name + "" == name;
    NoLabel(name);
    NamesCases(name);
    assert name[..|name|] == name;
    assert Slashed([]) == "";
    WrittenAll(name, Room([]));
    PushText(INITIAL, name);
    OneNameReach(name);
    hide Names, Reach, Fold, AllValid, Room, Written;
  }

  lemma {:induction false} NoLabel(name: CString)
    requires '/' !in name && ':' !in name
    ensures LabelLength(name) == |name| == NameLength(name)
  {
    if name != "" { NoLabel(name[1..]); }
  }

  lemma {:induction false} WrittenAll(name: string, room: int)
    requires AllValid(name)
    ensures Written(name, room) == if room <= 0 then 0 else if |name| <= room then |name| else room
  {
    hide ValidChar;
    if name != "" && room > 0 { WrittenAll(name[1..], room - 1); }
  }

  lemma OneNameReach(name: CString)
    requires name != "." && name != ".." && Names(name) == [name]
    ensures Fold([], Names(name)).Some? <==> CanPush([], name)
    ensures Reach("sys", [], Names(name)) ==
      if CanPush([], name) then Max(Bytes(INITIAL), Bytes(Location("sys", [name])))
      else Max(Bytes(INITIAL), Bytes(INITIAL) - 1 + Written(name, Room([])))
  {
    hide CanPush, Written, Room, Render;
    var none: seq<string> := [];
    assert [name] == [name] + none && none + [name] == [name];
    FoldCons([], name, []);
    assert [name][1..] == [];
  }

  // ---------- Two inputs that are not fixed points ----------

  lemma DoubleSlashNames()
    ensures Names("//") == ["", ""] && Names(".") == ["."]
  {
    assert "//"[1..] == "/";
    NamesCases("//");
    NamesCases("/");
    NamesCases(".");
    DotNames();
    assert NameLength(".") == 1 && "."[..1] == ".";
  }

  lemma EmptyPush()
    ensures Fold([], [""]) == Some([""])
  {
    var none: seq<string> := [];
    assert [""] == [""] + none && none + [""] == [""];
    assert AllValid("");
    assert Enter([], "") == Some([""]);
    FoldCons([], "", []);
  }

  const SLASHED := Location("sys", [""])

  lemma SlashedText()
    ensures Render(SLASHED) == "sys:/" && LocationOk(SLASHED)
  {
    assert SLASHED.comps[..0] == [];
    assert Slashed([""]) == "/" by { SlashedBack([""]); }
    assert AllValid("sys");
  }

  /** "//" pushes one empty component, which makes "sys:/", and parsing that again drops it. */
  lemma DoubleSlashIsNotFixed(other: Location)
    ensures Resolve(INITIAL, "//") == Some(SLASHED) && Render(SLASHED) == "sys:/"
    ensures Resolve(other, "sys:/") == Some(INITIAL)
  {
    DoubleSlashNames();
    assert ["", ""][1..] == [""];
    EmptyPush();
    SlashedText();
    ResolveAgain(other, SLASHED);
    hide Fold, LocationOk;
  }

  lemma DotStays(l: Location)
    ensures Resolve(l, ".") == Some(l) && IsRelative(".") && Visited(".") == ["."]
  {
    DoubleSlashNames();
    assert NameLength(".") == 1 && LabelLength(".") == 1 && AllValid(".");
    var none: seq<string> := [];
    assert ["."] == ["."] + none;
    FoldCons(l.comps, ".", []);
    hide LabelLength, NameLength, Names;
  }

  lemma CwdAfterOne(request: Chdir)
    requires request.confirmed && Resolve(INITIAL, request.path).Some?
    ensures CwdAfter([request]) == Resolve(INITIAL, request.path).value
  {
    hide Resolve;
    assert [request][..0] == [];
    assert CwdAfter([]) == INITIAL;
  }

  /** A working directory that such a path leads to is not a fixed point itself, and "." finds it again. */
  lemma DotIsNotFixed(other: Location)
    ensures var cwd := CwdAfter([Chdir("//", true)]);
            && Render(cwd) == "sys:/" && Resolve(cwd, ".") == Some(cwd)
            && NoEmpty(Visited(".")) && Resolve(other, "sys:/") != Some(cwd)
  {
    DoubleSlashIsNotFixed(other);
    DotStays(SLASHED);
    hide Resolve, Render, CwdAfter;
    CwdAfterOne(Chdir("//", true));
  }

  /** The text of a working directory determines it. */
  lemma TextDetermines(l: Location, m: Location)
    requires LocationOk(l) && LocationOk(m) && Render(l) == Render(m)
    ensures l == m
  {
    OneColon(l, |l.volume|);
    OneColon(m, |l.volume|);
    assert Render(l)[..|l.volume|] == l.volume && Render(m)[..|l.volume|] == m.volume;
    assert Render(l)[|l.volume| + 1..] == Slashed(l.comps) && Render(m)[|l.volume| + 1..] == Slashed(m.comps);
    TrimOk(l.comps);
    TrimOk(m.comps);
    SlashedInjective(l.comps, m.comps);
  }

  lemma {:induction false} SlashedInjective(a: seq<string>, b: seq<string>)
    requires Plain(a) && Plain(b) && Slashed(a) == Slashed(b)
    ensures a == b
    decreases |a|
  {
    if a != [] && b != [] {
      var i, j := a[|a|-1], b[|b|-1];
      var p, q := Slashed(a[..|a|-1]), Slashed(b[..|b|-1]);
      assert p + "/" + i == q + "/" + j;
      LastPart(p, i, q, j);
      SlashedInjective(a[..|a|-1], b[..|b|-1]);
      assert a == a[..|a|-1] + [i] && b == b[..|b|-1] + [j];
    }
  }

  lemma LastPart(p: string, i: string, q: string, j: string)
    requires '/' !in i && '/' !in j && p + "/" + i == q + "/" + j
    ensures p == q && i == j
  {
    var s, t := p + "/" + i, q + "/" + j;
    assert s[|p|] == '/' && t[|q|] == '/';
    assert s[..|p|] == p && t[..|q|] == q && s[|p| + 1..] == i && t[|q| + 1..] == j;
  }
}
