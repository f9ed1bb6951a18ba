// Publishing a static site (app/frontends.py): files are staged beside the served
// directory and swapped in by two renames. Any file operation may raise, and the
// process may end between any two of them.

module BundleSwap {
  import opened Text

  type Dir = map<string, string>

  const MANIFEST := ".pironman.json"
  const INDEX_FILES := ["index.html", "index.htm"]
  const MAX_FILES := 5000
  const MAX_BYTES := 200 * 1024 * 1024

  // A file of the archive, with the size its header states.
  datatype Member = Member(name: string, content: string, size: nat)
  type File = (string, string)

  datatype Refusal = TooMany | Unsafe | TooLarge | Empty | NoIndex
  datatype Outcome = Published(paths: seq<string>) | Refused(why: Refusal) | Stopped

  // ----- names -----

  function Slashes(s: string): (r: string)
    ensures |r| == |s|
  {
    if s == "" then "" else [if s[0] == '\\' then '/' else s[0]] + Slashes(s[1..])
  }

  // Backslashes are read as slashes, and nothing else is changed.
  lemma {:induction false} SlashesExactly(s: string, i: nat)
    requires i < |s|
    ensures Slashes(s)[i] == if s[i] == '\\' then '/' else s[i]
  {
    if i > 0 {
      SlashesExactly(s[1..], i - 1);
    }
  }

  predicate Absolute(name: string) {
    "/" <= name
  }

  predicate ClimbsOut(path: string) {
    ".." in Split(path, '/')
  }

  predicate UnsafeName(m: Member) {
    var name := Slashes(m.name);
    Absolute(name) || ClimbsOut(name)
  }

  function TopOf(m: Member): string {
    Split(Slashes(m.name), '/')[0]
  }

  // The one directory everything sits under, with its slash, or nothing.
  function StripRoot(members: seq<Member>): string
    requires members != []
  {
    if (forall i | 0 <= i < |members| :: TopOf(members[i]) == TopOf(members[0]))
       && (exists i | 0 <= i < |members| :: '/' in Slashes(members[i].name))
    then TopOf(members[0]) + "/"
    else ""
  }

  function RelName(m: Member, root: string): string {
    var name := Slashes(m.name);
    if root != "" && root <= name then name[|root|..] else name
  }

  // What is written, in order: a member with no name left is skipped.
  function Unpacked(members: seq<Member>, root: string): seq<File> {
    if members == [] then []
    else
      var n := |members| - 1;
      var rel := RelName(members[n], root);
      Unpacked(members[..n], root) + if rel == "" then [] else [(rel, members[n].content)]
  }

  // A later file of the same name replaces an earlier one.
  function DirOf(files: seq<File>): Dir {
    if files == [] then map[] else DirOf(files[..|files| - 1])[files[|files| - 1].0 := files[|files| - 1].1]
  }

  function PathsOf(files: seq<File>): (r: seq<string>)
    ensures |r| == |files| && forall i | 0 <= i < |files| :: r[i] == files[i].0
  {
    if files == [] then [] else PathsOf(files[..|files| - 1]) + [files[|files| - 1].0]
  }

  predicate HasIndex(d: Dir) {
    exists i | 0 <= i < |INDEX_FILES| :: INDEX_FILES[i] in d
  }

  // The new site: the files, and the manifest of the site it replaces.
  function Complete(files: seq<File>, served: Option<Dir>): Dir {
    WithManifest(DirOf(files), served)
  }

  lemma IndexExactly(d: Dir)
    ensures HasIndex(d) <==> "index.html" in d || "index.htm" in d
  {
    assert INDEX_FILES[0] == "index.html" && INDEX_FILES[1] == "index.htm";
  }

  // ----- the volume -----

  // Joining an absolute name to a directory gives that name, so such a file is
  // written where its own path leads.
  datatype Place = InServed(name: string) | InStaging(name: string) | InAside(name: string) | Elsewhere

  datatype Volume = Volume(served: Option<Dir>, staging: Option<Dir>, aside: Option<Dir>, outside: Dir)

  function PutIn(d: Option<Dir>, f: File): Option<Dir> {
    Some((if d.Some? then d.value else map[])[f.0 := f.1])
  }

  function Put(v: Volume, f: File, leads: string -> Place): Volume {
    if !Absolute(f.0) then v.(staging := PutIn(v.staging, f))
    else
      match leads(f.0)
      case InServed(name) => v.(served := PutIn(v.served, (name, f.1)))
      case InStaging(name) => v.(staging := PutIn(v.staging, (name, f.1)))
      case InAside(name) => v.(aside := PutIn(v.aside, (name, f.1)))
      case Elsewhere => v.(outside := v.outside[f.0 := f.1])
  }

  function PutAll(v: Volume, files: seq<File>, leads: string -> Place): Volume {
    if files == [] then v else Put(PutAll(v, files[..|files| - 1], leads), files[|files| - 1], leads)
  }

  lemma PutNext(v: Volume, files: seq<File>, n: nat, leads: string -> Place)
    requires n < |files|
    ensures PutAll(v, files[..n + 1], leads) == Put(PutAll(v, files[..n], leads), files[n], leads)
    ensures PathsOf(files[..n + 1]) == PathsOf(files[..n]) + [files[n].0]
  {
    assert files[..n + 1][..n] == files[..n];
  }

  lemma {:induction false} PutAllStaged(v: Volume, files: seq<File>, leads: string -> Place)
    requires v.staging.Some?
    ensures PutAll(v, files, leads).staging.Some?
  {
    if files != [] {
      PutAllStaged(v, files[..|files| - 1], leads);
    }
  }

  predicate AllRelative(files: seq<File>) {
    forall i | 0 <= i < |files| :: !Absolute(files[i].0)
  }

  // Relative names all end up in the staging directory.
  lemma {:induction false} RelativePut(v: Volume, files: seq<File>, leads: string -> Place)
    requires AllRelative(files) && v.staging == Some(map[])
    ensures PutAll(v, files, leads) == v.(staging := Some(DirOf(files)))
  {
    if files != [] {
      RelativePut(v, files[..|files| - 1], leads);
    }
  }

  function Emptied(v: Volume): Volume {
    v.(staging := Some(map[]))
  }

  // The new site: what was staged, and the manifest of the site served by then.
  function WithManifest(d: Dir, served: Option<Dir>): Dir {
    if served.Some? && MANIFEST in served.value then d[MANIFEST := served.value[MANIFEST]] else d
  }

  class Site {
    // Where an absolute path leads: the layout of the machine.
    const leads: string -> Place
    var served: Option<Dir>
    var staging: Option<Dir>
    var aside: Option<Dir>
    // Files written by an absolute name outside the three directories.
    var outside: Dir
    // Every change of what a reader of the site finds.
    ghost var changes: seq<Option<Dir>>

    constructor (leads: string -> Place)
      ensures served == staging == aside == None && outside == map[] && changes == [] && this.leads == leads
    {
      this.leads := leads;
      served, staging, aside, outside, changes := None, None, None, map[], [];
    }

    function Now(): Volume
      reads this
    {
      Volume(served, staging, aside, outside)
    }

    method WriteFile(f: File)
      modifies this
      ensures Now() == Put(old(Now()), f, leads)
      ensures changes == if served == old(served) then old(changes) else old(changes) + [served]
      ensures old(staging).Some? ==> staging.Some?
      ensures !Absolute(f.0) ==> served == old(served) && outside == old(outside)
    {
      if !Absolute(f.0) {
        staging := PutIn(staging, f);
      } else {
        match leads(f.0)
        case InServed(name) => served := PutIn(served, (name, f.1));
        case InStaging(name) => staging := PutIn(staging, (name, f.1));
        case InAside(name) => aside := PutIn(aside, (name, f.1));
        case Elsewhere => outside := outside[f.0 := f.1];
      }
      if served != old(served) {
        changes := changes + [served];
      }
    }

    // What a reader can have found during a publish that got some of the way.
    ghost predicate Went(before: Option<Dir>, changes0: seq<Option<Dir>>, next: Dir)
      reads this
    {
      || (served == before && changes == changes0)
      || (served == None && before.Some? && changes == changes0 + [None])
      || (served == Some(next) && changes == changes0 + (if before.Some? then [None] else []) + [Some(next)])
    }

    // Writes the files into an emptied staging directory; `left` is how many of
    // the file operations are then still to come.
    method Stage(files: seq<File>, ops: nat) returns (left: Option<nat>, paths: seq<string>)
      modifies this
      ensures AllRelative(files) ==> served == old(served) && changes == old(changes) && outside == old(outside)
      ensures left.Some? ==>
        && Now() == PutAll(Emptied(old(Now())), files, leads) && staging.Some?
        && paths == PathsOf(files) && left.value + |files| + 2 == ops
      ensures left.None? <==> ops < |files| + 2
      // cut short, it has got as far as the operations allow
      ensures left.None? ==>
        Now() == if ops == 0 then old(Now()) else if ops == 1 then old(Now()).(staging := None)
                 else PutAll(Emptied(old(Now())), files[..ops - 2], leads)
    {
      paths := [];
      if ops == 0 { return None, []; }
      staging := None;
      if ops == 1 { return None, []; }
      staging := Some(map[]);
      ghost var start := Now();
      for n := 0 to |files|
        invariant Now() == PutAll(start, files[..n], leads)
        invariant staging.Some? && paths == PathsOf(files[..n]) && n + 2 <= ops
        invariant AllRelative(files) ==> served == old(served) && changes == old(changes) && outside == old(outside)
      {
        if n + 2 == ops { return None, paths; }
        PutNext(start, files, n, leads);
        WriteFile(files[n]);
        paths := paths + [files[n].0];
      }
      assert files[..|files|] == files;
      left := Some(ops - 2 - |files|);
    }

    // Keeps the manifest and swaps the staged site in.
    method Swap(ops: nat) returns (done: bool)
      requires staging.Some?
      modifies this
      ensures Went(old(served), old(changes), WithManifest(old(staging).value, old(served))) && outside == old(outside)
      ensures done <==> ops >= 5
      // what has been done by each of its operations: the manifest, an empty place
      // aside, the old site there, the new one in its place, and the old one gone
      ensures ops == 0 ==> Now() == old(Now())
      ensures ops >= 1 && ops <= 3 ==>
        staging == Some(WithManifest(old(staging).value, old(served)))
      ensures ops <= 2 ==> served == old(served) && aside == if ops < 2 then old(aside) else None
      ensures ops == 3 ==> served == None && aside == old(served)
      ensures ops >= 4 ==> served == Some(WithManifest(old(staging).value, old(served))) && staging == None
      ensures ops >= 4 ==> aside == if ops == 4 then old(served) else None
    {
      done := false;
      if ops == 0 { return; }
      if served.Some? && MANIFEST in served.value {
        staging := Some(staging.value[MANIFEST := served.value[MANIFEST]]);
      }
      if ops == 1 { return; }
      aside := None;
      if ops == 2 { return; }
      if served.Some? {
        aside, served := served, None;
        changes := changes + [None];
      }
      if ops == 3 { return; }
      served, staging := staging, None;
      changes := changes + [served];
      if ops == 4 { return; }
      aside := None;
      done := true;
    }

    // Stages the files, keeps the manifest, swaps. `ops` is how many file
    // operations are done before one raises or the process ends.
    method StageAndSwap(files: seq<File>, mustIndex: bool, ops: nat) returns (o: Outcome)
      modifies this
      // with relative names, all that a reader can find is the old site, none, or
      // the complete new one
      ensures AllRelative(files) ==>
        Went(old(served), old(changes), Complete(files, old(served))) && outside == old(outside)
      // with any names, the files are where their names lead
      ensures var v := PutAll(Emptied(old(Now())), files, leads);
        && (o.Refused? ==> o.why == NoIndex && mustIndex && (v.staging.Some? ==> !HasIndex(v.staging.value))
                           && served == v.served && outside == v.outside && staging == None)
        && (o.Published? ==>
              && o.paths == PathsOf(files) && v.staging.Some? && (mustIndex ==> HasIndex(v.staging.value))
              && served == Some(WithManifest(v.staging.value, v.served)) && outside == v.outside
              && staging == None && aside == None)
      // and how it ends depends on nothing else than how far it got
      ensures var v := PutAll(Emptied(old(Now())), files, leads);
        v.staging.Some? && o == if ops < |files| + 2 then Stopped
                                else if mustIndex && !HasIndex(v.staging.value) then Refused(NoIndex)
                                else if ops < |files| + 7 then Stopped else Published(PathsOf(files))
    {
      PutAllStaged(Emptied(Now()), files, leads);
      if AllRelative(files) {
        RelativePut(Emptied(Now()), files, leads);
      }
      var left, paths := Stage(files, ops);
      if left.None? {
        return Stopped;
      }
      if mustIndex && !HasIndex(staging.value) {
        staging := None;
        return Refused(NoIndex);
      }
      var done := Swap(left.value);
      o := if done then Published(paths) else Stopped;
    }

    method DeployBundle(members: seq<Member>, ops: nat) returns (o: Outcome)
      modifies this
      ensures !Acceptable(members) ==> o.Refused? && served == old(served) && changes == old(changes) && outside == old(outside)
      // a bundle that stays inside is swapped in whole
      ensures Acceptable(members) && Contained(members) ==>
        var files := Unpacked(members, StripRoot(members));
        && Went(old(served), old(changes), Complete(files, old(served))) && outside == old(outside)
        && (o.Refused? ==> o.why == NoIndex && !HasIndex(DirOf(files)) && served == old(served))
        && (o.Published? ==>
              o.paths == PathsOf(files) && HasIndex(DirOf(files)) && served == Some(Complete(files, old(served))))
        && (ops >= |files| + 7 ==> (o.Published? <==> HasIndex(DirOf(files))) && !o.Stopped?)
      // one that does not has its absolute names written where they lead, published
      // or not
      ensures Acceptable(members) ==>
        var v := PutAll(Emptied(old(Now())), Unpacked(members, StripRoot(members)), leads);
        && (o.Refused? ==> served == v.served && outside == v.outside)
        && (o.Published? ==> v.staging.Some? && served == Some(WithManifest(v.staging.value, v.served)) && outside == v.outside)
    {
      var why := Check(members);
      if why.Some? {
        return Refused(why.value);
      }
      var files := Unpacked(members, StripRoot(members));
      StaysInside(members);
      if Contained(members) {
        InsideIsRelative(files);
        RelativePut(Emptied(Now()), files, leads);
      }
      o := StageAndSwap(files, true, ops);
    }

    // Text files given by path: everything is checked before anything is written,
    // and no name is absolute once its leading slashes are off.
    method DeployFiles(given: seq<File>, bytes: nat, ops: nat) returns (o: Outcome)
      modifies this
      ensures outside == old(outside)
      ensures FilesAcceptable(given, bytes) ==>
        && Went(old(served), old(changes), Complete(Cleaned(given), old(served)))
        && !o.Refused?
        && (o.Published? ==> served == Some(Complete(Cleaned(given), old(served))))
      ensures FilesAcceptable(given, bytes) && ops >= |given| + 7 ==> o.Published?
      ensures !FilesAcceptable(given, bytes) ==> o.Refused? && served == old(served) && changes == old(changes)
      // the first of the tests that fails is the reason given
      ensures o.Refused? ==>
        o.why == (if given == [] then Empty else if |given| > MAX_FILES then TooMany else if bytes > MAX_BYTES then TooLarge
                  else if exists i :: 0 <= i < |given| && UnsafePath(given[i].0) then Unsafe else NoIndex)
    {
      CleanedLength(given);
      if given == [] { return Refused(Empty); }
      if |given| > MAX_FILES { return Refused(TooMany); }
      if bytes > MAX_BYTES { return Refused(TooLarge); }
      for n := 0 to |given|
        invariant forall m | 0 <= m < n :: !UnsafePath(given[m].0)
      {
        if UnsafePath(given[n].0) { return Refused(Unsafe); }
      }
      if !HasIndex(DirOf(Cleaned(given))) { return Refused(NoIndex); }
      CleanedInside(given);
      InsideIsRelative(Cleaned(given));
      RelativePut(Emptied(Now()), Cleaned(given), leads);
      o := StageAndSwap(Cleaned(given), false, ops);
    }
  }

  // ----- what is accepted -----

  function SizeOf(members: seq<Member>): nat {
    if members == [] then 0 else SizeOf(members[..|members| - 1]) + members[|members| - 1].size
  }

  predicate Acceptable(members: seq<Member>) {
    && 0 < |members| <= MAX_FILES
    && (forall i | 0 <= i < |members| :: !UnsafeName(members[i]))
    && SizeOf(members) <= MAX_BYTES
  }

  lemma {:induction false} SizeRises(members: seq<Member>, n: nat)
    requires n <= |members|
    ensures SizeOf(members[..n]) <= SizeOf(members)
    decreases |members| - n
  {
    if n < |members| {
      assert members[..n + 1][..n] == members[..n];
      SizeRises(members, n + 1);
    } else {
      assert members[..n] == members;
    }
  }

  // The first file that cannot be taken.
  predicate FirstBad(members: seq<Member>, n: int) {
    && 0 <= n < |members| && (forall i | 0 <= i < n :: !UnsafeName(members[i])) && SizeOf(members[..n]) <= MAX_BYTES
    && (UnsafeName(members[n]) || SizeOf(members[..n + 1]) > MAX_BYTES)
  }

  method Check(members: seq<Member>) returns (why: Option<Refusal>)
    ensures why.None? <==> Acceptable(members)
    // too many and none are told by their number, the other two by the first file
    // that is unsafe or takes the sizes over the limit
    ensures why == Some(TooMany) <==> |members| > MAX_FILES
    ensures why == Some(Empty) <==> members == []
    ensures why != Some(NoIndex)
    ensures why == Some(Unsafe) ==> exists n :: FirstBad(members, n) && UnsafeName(members[n])
    ensures why == Some(TooLarge) ==> exists n :: FirstBad(members, n) && !UnsafeName(members[n])
  {
    if |members| > MAX_FILES {
      return Some(TooMany);
    }
    var total := 0;
    for n := 0 to |members|
      invariant total == SizeOf(members[..n]) <= MAX_BYTES
      invariant forall i | 0 <= i < n :: !UnsafeName(members[i])
    {
      if UnsafeName(members[n]) {
        assert FirstBad(members, n);
        return Some(Unsafe);
      }
      assert members[..n + 1][..n] == members[..n];
      total := total + members[n].size;
      if total > MAX_BYTES {
        SizeRises(members, n + 1);
        assert FirstBad(members, n);
        return Some(TooLarge);
      }
    }
    assert members[..|members|] == members;
    why := if members == [] then Some(Empty) else None;
  }

  function LeftStrip(s: string): string {
    if s != "" && s[0] == '/' then LeftStrip(s[1..]) else s
  }

  function CleanPath(path: string): string {
    LeftStrip(Slashes(path))
  }

  predicate UnsafePath(path: string) {
    CleanPath(path) == "" || ClimbsOut(CleanPath(path))
  }

  function Cleaned(given: seq<File>): seq<File> {
    if given == [] then []
    else Cleaned(given[..|given| - 1]) + [(CleanPath(given[|given| - 1].0), given[|given| - 1].1)]
  }

  lemma {:induction false} CleanedLength(given: seq<File>)
    ensures |Cleaned(given)| == |given|
  {
    if given != [] {
      CleanedLength(given[..|given| - 1]);
    }
  }

  lemma {:induction false} CleanedExactly(given: seq<File>, i: nat)
    requires i < |given|
    ensures |Cleaned(given)| == |given| && Cleaned(given)[i] == (CleanPath(given[i].0), given[i].1)
  {
    CleanedLength(given);
    if i < |given| - 1 {
      CleanedExactly(given[..|given| - 1], i);
    }
    CleanedLength(given[..|given| - 1]);
  }

  predicate FilesAcceptable(given: seq<File>, bytes: nat) {
    && 0 < |given| <= MAX_FILES && bytes <= MAX_BYTES
    && (forall i | 0 <= i < |given| :: !UnsafePath(given[i].0))
    && HasIndex(DirOf(Cleaned(given)))
  }

  // ----- what a publish means -----

  // A name is in the new site just when a file of that name was given, with the
  // last content given for it.
  lemma {:induction false} DirHolds(files: seq<File>, name: string)
    ensures name in DirOf(files) <==> exists i :: 0 <= i < |files| && files[i].0 == name
    ensures forall i | 0 <= i < |files| && files[i].0 == name && (forall j | i < j < |files| :: files[j].0 != name) ::
      DirOf(files)[name] == files[i].1
  {
    if files != [] {
      var n := |files| - 1;
      DirHolds(files[..n], name);
      assert forall i | 0 <= i < n :: files[..n][i] == files[i];
      if i :| 0 <= i < |files| && files[i].0 == name {
        assert i == n || files[..n][i].0 == name;
      }
      if i :| 0 <= i < n && files[..n][i].0 == name {
        assert files[i].0 == name;
      }
    }
  }

  // The first segment of a name, and what follows its slash.
  lemma FirstSegment(name: string) returns (top: string, rest: string)
    ensures top == Split(name, '/')[0] && '/' !in top
    ensures '/' in name ==> name == top + "/" + rest && Split(name, '/') == [top] + Split(rest, '/')
    ensures '/' !in name ==> name == top
  {
    var k := IndexOf(name, '/');
    if k < |name| {
      top, rest := name[..k], name[k + 1..];
    } else {
      top, rest := name, "";
    }
  }

  // What the name test refuses, by the text: a name that starts with a slash of
  // either kind, or has `..` between slashes or at an end.
  lemma UnsafeExactly(m: Member)
    ensures var name := Slashes(m.name);
            UnsafeName(m) <==>
              || (m.name != "" && (m.name[0] == '/' || m.name[0] == '\\'))
              || StandsIn(name, "..", '/')
  {
    SplitExactly(Slashes(m.name), "..", '/');
    if m.name != "" {
      SlashesExactly(m.name, 0);
    }
  }

  lemma {:induction false} LeftStripIs(s: string) returns (lead: string)
    ensures s == lead + LeftStrip(s) && (forall i | 0 <= i < |lead| :: lead[i] == '/')
    ensures LeftStrip(s) != "" ==> LeftStrip(s)[0] != '/'
    ensures ".." in Split(LeftStrip(s), '/') <==> ".." in Split(s, '/')
  {
    if s != "" && s[0] == '/' {
      var more := LeftStripIs(s[1..]);
      lead := "/" + more;
      assert s == "" + "/" + s[1..];
      SplitFirst("", s[1..], '/');
      Assoc("/", more, LeftStrip(s[1..]));
    } else {
      lead := "";
    }
  }

  predicate OnlySlashes(path: string) {
    forall i | 0 <= i < |path| :: path[i] == '/' || path[i] == '\\'
  }

  lemma NothingLeft(path: string)
    ensures CleanPath(path) == "" <==> OnlySlashes(path)
  {
    var lead := LeftStripIs(Slashes(path));
    forall i | 0 <= i < |path| ensures Slashes(path)[i] == if path[i] == '\\' then '/' else path[i] {
      SlashesExactly(path, i);
    }
    if CleanPath(path) == "" {
      assert lead + "" == lead;
    } else {
      assert Slashes(path)[|lead|] == CleanPath(path)[0];
    }
  }

  // An inline path is refused when nothing is left of it but slashes, or when it has
  // `..` between slashes or at an end. What it is written as is the path without its
  // leading slashes.
  lemma UnsafePathExactly(path: string)
    ensures UnsafePath(path) <==> OnlySlashes(path) || StandsIn(Slashes(path), "..", '/')
  {
    var lead := LeftStripIs(Slashes(path));
    SplitExactly(Slashes(path), "..", '/');
    NothingLeft(path);
  }

  // The directory taken off is the one every file is, or lies below, when some file
  // lies below it.
  lemma StripRootExactly(members: seq<Member>, dir: string)
    requires members != [] && '/' !in dir
    ensures StripRoot(members) == dir + "/" <==>
            && (forall i | 0 <= i < |members| :: Slashes(members[i].name) == dir || dir + "/" <= Slashes(members[i].name))
            && (exists i | 0 <= i < |members| :: '/' in Slashes(members[i].name))
  {
    forall i | 0 <= i < |members|
      ensures TopOf(members[i]) == dir <==> Slashes(members[i].name) == dir || dir + "/" <= Slashes(members[i].name)
    {
      TopExactly(Slashes(members[i].name), dir);
    }
    assert StripRoot(members) != "" ==> StripRoot(members)[..|StripRoot(members)| - 1] == TopOf(members[0]);
    assert (dir + "/")[..|dir + "/"| - 1] == dir;
    assert StripRoot(members) == dir + "/" ==> TopOf(members[0]) == dir;
  }

  lemma TopExactly(name: string, dir: string)
    requires '/' !in dir
    ensures Split(name, '/')[0] == dir <==> name == dir || dir + "/" <= name
  {
    var top, rest := FirstSegment(name);
    if dir + "/" <= name {
      var more := name[|dir + "/"|..];
      assert name == dir + "/" + more;
      SplitFirst(dir, more, '/');
    }
  }

  predicate Named(f: File) {
    f.0 != ""
  }

  // What is written is every file of the archive, in its order, by its name below the
  // directory taken off, but those with no name left.
  lemma {:induction false} UnpackedExactly(members: seq<Member>, root: string)
    ensures Unpacked(members, root) ==
            Filter(seq(|members|, i requires 0 <= i < |members| => (RelName(members[i], root), members[i].content)),
                   (f: File) => Named(f))
  {
    var all := seq(|members|, i requires 0 <= i < |members| => (RelName(members[i], root), members[i].content));
    if members != [] {
      var n := |members| - 1;
      var before := seq(n, i requires 0 <= i < n => (RelName(members[..n][i], root), members[..n][i].content));
      UnpackedExactly(members[..n], root);
      assert all[..n] == before;
    }
  }

  // Unwrapping takes one directory off every file below it, and nothing else.
  lemma Unwraps(members: seq<Member>, i: nat)
    requires i < |members|
    ensures var (root, name) := (StripRoot(members), Slashes(members[i].name));
            if root == "" then RelName(members[i], root) == name
            else if '/' in name then name == root + RelName(members[i], root)
            else RelName(members[i], root) == name && name + "/" == root
  {
    var name := Slashes(members[i].name);
    if StripRoot(members) != "" {
      var top, rest := FirstSegment(name);
      assert StripRoot(members) == top + "/";
      assert '/' !in name ==> |top + "/"| > |name|;
    }
  }

  lemma {:induction false} UnpackedFrom(members: seq<Member>, root: string, i: nat) returns (m: nat)
    requires i < |Unpacked(members, root)|
    ensures m < |members| && Unpacked(members, root)[i] == (RelName(members[m], root), members[m].content)
    ensures RelName(members[m], root) != ""
  {
    var n := |members| - 1;
    if i < |Unpacked(members[..n], root)| {
      m := UnpackedFrom(members[..n], root, i);
    } else {
      m := n;
    }
  }

  // A name that stays in the directory it is joined to.
  predicate Inside(name: string) {
    name != "" && !Absolute(name) && !ClimbsOut(name)
  }

  predicate AllInside(files: seq<File>) {
    forall i | 0 <= i < |files| :: Inside(files[i].0)
  }

  lemma InsideIsRelative(files: seq<File>)
    requires AllInside(files)
    ensures AllRelative(files)
  {
    forall i | 0 <= i < |files| ensures !Absolute(files[i].0) {
      assert Inside(files[i].0);
    }
  }

  // No name has a second slash right after the directory that is taken off.
  predicate Contained(members: seq<Member>)
    requires members != []
  {
    var root := StripRoot(members);
    root != "" ==> forall i | 0 <= i < |members| :: !(root + "/" <= Slashes(members[i].name))
  }

  lemma RelNeverClimbs(members: seq<Member>, m: nat)
    requires Acceptable(members) && m < |members|
    ensures !ClimbsOut(RelName(members[m], StripRoot(members)))
  {
    var name := Slashes(members[m].name);
    assert !UnsafeName(members[m]);
    if StripRoot(members) != "" {
      Unwraps(members, m);
      var top, rest := FirstSegment(name);
      if '/' in name {
        assert StripRoot(members) == top + "/";
        assert RelName(members[m], StripRoot(members)) == rest;
      }
    }
  }

  lemma RelAbsolute(members: seq<Member>, m: nat)
    requires Acceptable(members) && m < |members|
    ensures var root := StripRoot(members);
            Absolute(RelName(members[m], root)) <==> root != "" && root + "/" <= Slashes(members[m].name)
  {
    var root, name := StripRoot(members), Slashes(members[m].name);
    assert !UnsafeName(members[m]);
    if root != "" && root <= name {
      assert name == root + name[|root|..];
      assert root + "/" <= name <==> "/" <= name[|root|..];
    }
  }

  lemma {:induction false} UnpackedHas(members: seq<Member>, root: string, m: nat)
    requires m < |members| && RelName(members[m], root) != ""
    ensures (RelName(members[m], root), members[m].content) in Unpacked(members, root)
  {
    if m < |members| - 1 {
      UnpackedHas(members[..|members| - 1], root, m);
    }
  }

  // The names are tested before the common directory is taken off. Every file of
  // an accepted bundle is written inside the new site exactly when no name has a
  // second slash behind that directory.
  lemma StaysInside(members: seq<Member>)
    requires Acceptable(members)
    ensures AllInside(Unpacked(members, StripRoot(members))) <==> Contained(members)
  {
    var root := StripRoot(members);
    var files := Unpacked(members, root);
    if Contained(members) {
      forall i | 0 <= i < |files| ensures Inside(files[i].0) {
        var m := UnpackedFrom(members, root, i);
        RelNeverClimbs(members, m);
        RelAbsolute(members, m);
      }
    } else {
      var m :| 0 <= m < |members| && root + "/" <= Slashes(members[m].name);
      RelAbsolute(members, m);
      UnpackedHas(members, root, m);
      var i :| 0 <= i < |files| && files[i] == (RelName(members[m], root), members[m].content);
      assert !Inside(files[i].0);
    }
  }

  lemma {:induction false} SlashesSame(s: string)
    requires '\\' !in s
    ensures Slashes(s) == s
  {
    if s != "" {
      SlashesSame(s[1..]);
    }
  }

  // A bundle of two files in one directory, the second with a doubled slash.
  function Escaping(dir: string, path: string, page: string, content: string): seq<Member> {
    [Member(dir + "/" + "index.html", page, 0), Member(dir + "/" + ("/" + path), content, 0)]
  }

  // A directory and a path that the name test lets through.
  predicate PlainNames(dir: string, path: string) {
    && dir != "" && dir != ".." && '/' !in dir && '\\' !in dir
    && '\\' !in path && !ClimbsOut(path)
  }

  // A name below a directory.
  lemma BelowDir(dir: string, rest: string)
    requires dir != "" && dir != ".." && '/' !in dir && '\\' !in dir && '\\' !in rest && !ClimbsOut(rest)
    ensures var name := dir + "/" + rest;
            && Slashes(name) == name && Split(name, '/')[0] == dir && '/' in name
            && !Absolute(name) && !ClimbsOut(name)
            && dir + "/" <= name && name[|dir + "/"|..] == rest
  {
    var name := dir + "/" + rest;
    SlashesSame(name);
    SplitFirst(dir, rest, '/');
    assert name[0] == dir[0] && dir[0] in dir;
    assert name[|dir|] == '/';
  }

  lemma SlashPath(path: string)
    requires !ClimbsOut(path)
    ensures !ClimbsOut("/" + path)
  {
    assert "" + "/" + path == "/" + path;
    SplitFirst("", path, '/');
  }

  lemma NamedBelow(dir: string, rest: string, content: string)
    requires dir != "" && dir != ".." && '/' !in dir && '\\' !in dir && '\\' !in rest && !ClimbsOut(rest)
    ensures var m := Member(dir + "/" + rest, content, 0);
            !UnsafeName(m) && TopOf(m) == dir && '/' in Slashes(m.name) && RelName(m, dir + "/") == rest
  {
    BelowDir(dir, rest);
  }

  lemma PairUnpacked(a: Member, b: Member, root: string)
    requires RelName(a, root) != "" && RelName(b, root) != ""
    ensures Unpacked([a, b], root) == [(RelName(a, root), a.content), (RelName(b, root), b.content)]
  {
    assert [a, b][..1] == [a] && [a][..0] == [];
    assert Unpacked([a], root) == [(RelName(a, root), a.content)];
  }

  lemma PairAcceptable(a: Member, b: Member)
    requires !UnsafeName(a) && !UnsafeName(b) && a.size == b.size == 0
    ensures Acceptable([a, b])
  {
    assert [a, b][..1] == [a] && [a][..0] == [];
    assert SizeOf([]) == 0 && SizeOf([a]) == 0;
  }

  lemma PairRoot(a: Member, b: Member, dir: string)
    requires TopOf(a) == TopOf(b) == dir && '/' in Slashes(a.name)
    ensures StripRoot([a, b]) == dir + "/"
  {
    assert [a, b][0] == a && '/' in Slashes([a, b][0].name);
  }

  lemma EscapingUnpacked(dir: string, path: string, page: string, content: string)
    requires PlainNames(dir, path)
    ensures var members := Escaping(dir, path, page, content);
            && Acceptable(members) && StripRoot(members) == dir + "/"
            && Unpacked(members, dir + "/") == [("index.html", page), ("/" + path, content)]
  {
    assert '/' !in "index.html" && Split("index.html", '/') == ["index.html"];
    NamedBelow(dir, "index.html", page);
    SlashPath(path);
    NamedBelow(dir, "/" + path, content);
    var a, b := Member(dir + "/" + "index.html", page, 0), Member(dir + "/" + ("/" + path), content, 0);
    PairAcceptable(a, b);
    PairRoot(a, b, dir);
    PairUnpacked(a, b, dir + "/");
  }

  // An accepted bundle can leave the site: its second file is written at an
  // absolute path, and when that leads into the served directory a reader finds
  // the old site with that one file changed before anything is swapped.
  lemma AcceptedCanEscape(dir: string, path: string, page: string, content: string, before: Volume, leads: string -> Place)
    requires PlainNames(dir, path)
    ensures var members := Escaping(dir, path, page, content);
            && Acceptable(members) && !Contained(members)
            && var v := PutAll(before, Unpacked(members, StripRoot(members)), leads);
               && (leads("/" + path).Elsewhere? ==> v.outside == before.outside["/" + path := content])
               && (leads("/" + path).InServed? ==>
                     v.served == PutIn(before.served, (leads("/" + path).name, content)))
  {
    EscapingUnpacked(dir, path, page, content);
    var f, g := ("index.html", page), ("/" + path, content);
    assert !Absolute(f.0) && Absolute(g.0);
    SecondLeaves(Escaping(dir, path, page, content), f, g);
    SecondPut(before, f, g, leads);
  }

  lemma SecondLeaves(members: seq<Member>, f: File, g: File)
    requires Acceptable(members) && Unpacked(members, StripRoot(members)) == [f, g] && Absolute(g.0)
    ensures !Contained(members)
  {
    StaysInside(members);
    assert !Inside([f, g][1].0);
  }

  lemma SecondPut(v: Volume, f: File, g: File, leads: string -> Place)
    requires !Absolute(f.0) && Absolute(g.0)
    ensures leads(g.0).Elsewhere? ==> PutAll(v, [f, g], leads).outside == v.outside[g.0 := g.1]
    ensures leads(g.0).InServed? ==> PutAll(v, [f, g], leads).served == PutIn(v.served, (leads(g.0).name, g.1))
  {
    assert [f, g][..1] == [f] && [f][..0] == [];
    assert PutAll(v, [f], leads) == Put(PutAll(v, [], leads), f, leads);
  }

  lemma {:induction false} LeftStripped(s: string)
    ensures !Absolute(LeftStrip(s))
  {
    if s != "" && s[0] == '/' {
      LeftStripped(s[1..]);
    }
  }

  // Inline files need no such condition: their leading slashes come off before
  // the test, not after it.
  lemma {:induction false} CleanedInside(given: seq<File>)
    requires forall i | 0 <= i < |given| :: !UnsafePath(given[i].0)
    ensures AllInside(Cleaned(given))
  {
    if given != [] {
      CleanedInside(given[..|given| - 1]);
      LeftStripped(Slashes(given[|given| - 1].0));
    }
  }
}
