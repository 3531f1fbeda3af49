/** The meaning of the gathering functions of src/bin/rapido-cut.rs: how each one
    changes the set of seen paths, the set of seen library names and the archive. */
module Gather {
  import opened Strings
  import opened Newc
  import opened Padding
  import opened ArchiveName
  import opened Cpio
  import opened HostFs

  /** Why an entry was archived: `Mocked` for parent directories and manifest lines,
      `Scanned` by the ELF gatherer, `Copied` from a source path, `NumberedDir` and
      `Numbered` for the directory and the locations of `autorun` lines. */
  datatype Origin =
    | Mocked
    | Scanned(src: Path, lib: bool)
    | Copied(src: Path)
    | NumberedDir
    | Numbered(src: Path, idx: nat)

  predicate ByAutorun(o: Origin) { o.NumberedDir? || o.Numbered? }

  datatype LogEntry = LogEntry(dst: Path, call: Call, origin: Origin)

  /** `paths_seen`, `libs_seen` and the archive calls made so far. */
  datatype State = State(seen: set<Path>, libs: set<Bytes>, log: seq<LogEntry>)

  datatype Kind = NotFound | Other

  datatype Status = Ok | Err(kind: Kind)

  datatype Result = Result(st: State, out: Status)

  /** rapido-cut aligns file data to 4096 bytes. */
  const CUT_PROPS := DEFAULT_PROPS.(dataAlign := 4096)

  /** An archive call; refused ones leave the archive alone. */
  function Put(st: State, dst: Path, call: Call, origin: Origin): Result
  {
    if Accepted(call) then Result(st.(log := st.log + [LogEntry(dst, call, origin)]), Ok)
    else Result(st, Err(Other))
  }

  function See(st: State, p: Path): State { st.(seen := st.seen + {p}) }

  // ---- gather_archive_dirs ------------------------------------------------

  /** The mode of a mocked parent: a directory; the literal 0111 of the source is
      the decimal number 111. */
  function ParentMode(mode: U32): U32
  {
    hide And, Or;
    OrBelow(mode % 4096, 111);
    if TypeOf(mode) == IFDIR then mode
    else (mode / 65536) * 65536 + IFDIR * 4096 + Or(mode % 4096, 111)
  }

  /** Whatever the child, its parents are directories that keep its permissions and
      can be traversed by everyone: 73 is 0o111. */
  lemma {:induction false} ParentModeIsDir(mode: U32)
    ensures TypeOf(ParentMode(mode)) == IFDIR
    ensures And(mode % 4096, ParentMode(mode) % 4096) == mode % 4096
    ensures TypeOf(mode) != IFDIR ==> And(73, ParentMode(mode) % 4096) == 73
  {
    hide And, Or;
    var low := mode % 4096;
    OrKeeps(low, 111);
    OrBelow(low, 111);
    AndSelf(low);
    TraversalBits();
    AndTrans(73, 111, Or(low, 111));
    if TypeOf(mode) != IFDIR {
      ModeParts(mode / 65536, Or(low, 111));
    }
  }

  /** What 111 adds besides the bits for traversal: 38 is 0o046, so a parent mocked for
      anything but a directory can be read by its group and read and written by
      everyone. It has just the permissions of the child and the traversal bits if and
      only if the child had those bits. */
  lemma {:induction false} ParentModeExact(mode: U32)
    requires TypeOf(mode) != IFDIR
    ensures And(38, ParentMode(mode) % 4096) == 38
    ensures ParentMode(mode) % 4096 == Or(mode % 4096, 73) <==> And(38, mode % 4096) == 38
  {
    hide And, Or;
    var low := mode % 4096;
    OrKeeps(low, 111);
    OrBelow(low, 111);
    ExtraBits();
    AndTrans(38, 111, Or(low, 111));
    ModeParts(mode / 65536, Or(low, 111));
    OrBesides(low, 73, 38);
  }

  lemma ExtraBits()
    ensures And(73, 38) == 0 && And(38, 111) == 38
  {
    assert And(4, 2) == 0 by { assert And(2, 1) == 0; assert And(1, 0) == 0; }
    assert And(18, 9) == 0 by { assert And(9, 4) == 0; }
    assert And(36, 19) == 0;
    assert And(4, 13) == 4 by { assert And(2, 6) == 2; assert And(1, 3) == 1; }
    assert And(19, 55) == 19 by { assert And(9, 27) == 9; }
  }

  /** The parents of a file of mode 0600 become world-writable. */
  lemma {:induction false} PrivateFileOpensParents()
    ensures var mode := 0x8000 + 384;
            && TypeOf(mode) == IFREG && Or(mode % 4096, 73) == 457
            && ParentMode(mode) == 0x4000 + 495 && And(2, 495) == 2
  {
    hide And, Or;
    PrivateBits();
    assert (0x8000 + 384) % 4096 == 384 && (0x8000 + 384) / 65536 == 0;
  }

  lemma PrivateBits()
    ensures Or(384, 111) == 495 && Or(384, 73) == 457 && And(2, 495) == 2
  {
    hide And, Or;
    OrZero(0);
    OrStep(1, 0); OrStep(3, 0); OrStep(3, 1);
    OrStep(6, 1); OrStep(12, 3); OrStep(24, 6); OrStep(48, 13); OrStep(96, 27); OrStep(192, 55); OrStep(384, 111);
    OrStep(12, 2); OrStep(24, 4); OrStep(48, 9); OrStep(96, 18); OrStep(192, 36); OrStep(384, 73);
    AndStep(2, 495); AndStep(1, 247); AndNone(123);
  }

  lemma ModeParts(hi: nat, low: nat)
    requires low < 4096 && hi < 65536
    ensures var m := hi * 65536 + IFDIR * 4096 + low; m % 4096 == low && (m / 4096) % 16 == IFDIR
  {
  }

  lemma TraversalBits()
    ensures And(73, 111) == 73
  {
    assert And(4, 6) == 4 by { assert And(2, 3) == 2; assert And(1, 1) == 1; }
    assert And(18, 27) == 18 by { assert And(9, 13) == 9; }
    assert And(36, 55) == 36;
  }

  function ParentMd(md: Md): Md {
    Md(2, ParentMode(md.mode), md.uid, md.gid, md.mtime, 0, 0, 0)
  }

  /** The loop over the components; `here` is where it stands. */
  function DirsFrom(st: State, here: seq<Bytes>, comps: seq<Bytes>, md: Md): Result
    decreases |comps|
  {
    if comps == [] then Result(st, Ok)
    else if comps[0] == DOT_DOT then
      if here == [] then Result(st, Err(Other))
      else DirsFrom(st, here[..|here| - 1], comps[1..], md)
    else
      var next := here + [comps[0]];
      var p := Path(true, next);
      if p in st.seen then DirsFrom(st, next, comps[1..], md)
      else
        var put := Put(See(st, p), p, PathCall(Render(p), md), Mocked);
        if put.out.Err? then put else DirsFrom(put.st, next, comps[1..], md)
  }

  function Dirs(st: State, path: Option<Path>, childMd: Md): Result
  {
    match path
    case None => Result(st, Ok)
    case Some(p) =>
      if !p.absolute then Result(st, Err(Other))
      else if p in st.seen then Result(st, Ok)
      else DirsFrom(st, [], p.comps, ParentMd(childMd))
  }

  /** Parents first, then the entry itself, then it is seen. */
  function PutUnder(st: State, dst: Path, md: Md, call: Call, origin: Origin): Result
  {
    var dirs := Dirs(st, Parent(dst), md);
    if dirs.out.Err? then dirs
    else
      var put := Put(dirs.st, dst, call, origin);
      if put.out.Err? then put else Result(See(put.st, dst), Ok)
  }

  // ---- path_stat ----------------------------------------------------------

  datatype Ent =
    | Named(name: Bytes)
    | NamedDst(name: Bytes, dst: Path)
    | NamedTry(name: Bytes)
    | PathEnt(path: Path)
    | Lib(name: Bytes)
    | LibRunPath(name: Bytes, dirs: seq<Bytes>)
    | ManifestName(name: Bytes)

  predicate IsLib(ent: Ent) { ent.Lib? || ent.LibRunPath? }

  function EncodeAll(names: seq<string>): seq<Bytes> {
    seq(|names|, i requires 0 <= i < |names| => Encode(names[i]))
  }

  function BinPaths(): seq<Bytes> {
    EncodeAll(["/usr/bin", "/usr/sbin", "/usr/lib/systemd", "/bin", "/sbin"])
  }

  /** The search path of an x86_64 build. */
  function LibPaths(): seq<Bytes> {
    EncodeAll(["/usr/lib64", "/usr/lib", "/lib64", "/lib", "/usr/lib/x86_64-linux-gnu"])
  }

  function ManifestPaths(): seq<Bytes> { EncodeAll(["manifest"]) }

  /** The first directory that has the name. */
  function Search(fs: Fs, dirs: seq<Bytes>, name: Bytes): (r: Option<Path>)
    ensures r.Some? ==> r.value in fs.nodes
  {
    if dirs == [] then None
    else
      var p := Join(ParsePath(dirs[0]), name);
      if p in fs.nodes then Some(p) else Search(fs, dirs[1..], name)
  }

  /** The search stops at the first directory that has the name, and fails if and only
      if none has it. */
  lemma {:induction false} SearchFirst(fs: Fs, dirs: seq<Bytes>, name: Bytes, i: nat)
    requires i <= |dirs| && (i < |dirs| ==> Join(ParsePath(dirs[i]), name) in fs.nodes)
    requires forall j :: 0 <= j < i ==> Join(ParsePath(dirs[j]), name) !in fs.nodes
    ensures Search(fs, dirs, name) == if i < |dirs| then Some(Join(ParsePath(dirs[i]), name)) else None
    decreases |dirs|
  {
    hide Join, ParsePath;
    if i > 0 { SearchFirst(fs, dirs[1..], name, i - 1); }
  }

  function StatName(fs: Fs, name: Bytes, dirs: seq<Bytes>): (r: Option<Path>)
    ensures r.Some? ==> r.value in fs.nodes
  {
    if SLASH in name then
      var p := Absolute(fs.cwd, name);
      if p.Some? && p.value in fs.nodes then p else None
    else Search(fs, dirs, name)
  }

  function SearchDirs(ent: Ent): seq<Bytes> {
    if IsLib(ent) then LibPaths() else if ent.ManifestName? then ManifestPaths() else BinPaths()
  }

  /** Where an entry is found, given the directories of its kind. */
  function LocateIn(fs: Fs, ent: Ent, dirs: seq<Bytes>): (r: Option<Path>)
    ensures r.Some? ==> r.value in fs.nodes
  {
    match ent
    case PathEnt(p) => if p in fs.nodes then Some(p) else None
    case LibRunPath(n, runpaths) =>
      if SLASH !in n && Search(fs, runpaths, n).Some? then Search(fs, runpaths, n)
      else StatName(fs, n, dirs)
    case _ => StatName(fs, ent.name, dirs)
  }

  /** `path_stat`. */
  function Locate(fs: Fs, ent: Ent): (r: Option<Path>)
    ensures r.Some? ==> r.value in fs.nodes
  {
    LocateIn(fs, ent, SearchDirs(ent))
  }

  // ---- elf_deps -----------------------------------------------------------

  datatype Deps = Deps(libs: set<Bytes>, ents: seq<Ent>, ok: bool)

  function LibEnt(name: Bytes, runpaths: seq<Bytes>): Ent {
    if runpaths == [] then Lib(name) else LibRunPath(name, runpaths)
  }

  /** The needed names not seen before; an unreadable name ends the scan. */
  function NeededDeps(libs: set<Bytes>, needed: seq<Option<Bytes>>, runpaths: seq<Bytes>): Deps
    decreases |needed|
  {
    if needed == [] then Deps(libs, [], true)
    else if needed[0].None? then Deps(libs, [], false)
    else
      var s := needed[0].value;
      if s in libs then NeededDeps(libs, needed[1..], runpaths)
      else
        var more := NeededDeps(libs + {s}, needed[1..], runpaths);
        more.(ents := [LibEnt(s, runpaths)] + more.ents)
  }

  /** A failed scan adds no entries, but the names it met stay seen. */
  function ElfDeps(libs: set<Bytes>, elf: Elf): Deps {
    match elf
    case NotElf => Deps(libs, [], false)
    case Elf(runpaths, needed) =>
      var d := NeededDeps(libs, needed, runpaths);
      if d.ok then d else d.(ents := [])
  }

  lemma {:induction false} SearchConcat(fs: Fs, a: seq<Bytes>, b: seq<Bytes>, name: Bytes)
    ensures Search(fs, a + b, name) == if Search(fs, a, name).Some? then Search(fs, a, name) else Search(fs, b, name)
    decreases |a|
  {
    hide Join, ParsePath;
    if a == [] {
      assert a + b == b;
    } else {
      assert (a + b)[1..] == a[1..] + b;
      SearchConcat(fs, a[1..], b, name);
    }
  }

  /** Where names are looked for: a name with a separator as the path it is, relative to
      the working directory; a library in the search directories of the file that needs
      it and then in those of the system; everything else in the directories of its
      kind. */
  lemma {:induction false} LocateExact(fs: Fs, name: Bytes, runpaths: seq<Bytes>)
    ensures SLASH !in name ==>
              && Locate(fs, LibEnt(name, runpaths)) ==
                 Search(fs, runpaths + EncodeAll(["/usr/lib64", "/usr/lib", "/lib64", "/lib", "/usr/lib/x86_64-linux-gnu"]), name)
              && Locate(fs, Named(name)) == Locate(fs, NamedTry(name)) ==
                 Search(fs, EncodeAll(["/usr/bin", "/usr/sbin", "/usr/lib/systemd", "/bin", "/sbin"]), name)
              && Locate(fs, ManifestName(name)) == Search(fs, EncodeAll(["manifest"]), name)
    ensures SLASH in name ==>
              && Locate(fs, LibEnt(name, runpaths)) == Locate(fs, Named(name)) == Locate(fs, NamedTry(name)) == Locate(fs, ManifestName(name))
              && Locate(fs, Named(name)) ==
                 match Absolute(fs.cwd, name) case None => None case Some(p) => if p in fs.nodes then Some(p) else None
  {
    hide Search, EncodeAll, Absolute;
    SearchConcat(fs, runpaths, LibPaths(), name);
    if runpaths == [] { assert runpaths + LibPaths() == LibPaths(); }
  }

  // ---- gather_archive_elfs ------------------------------------------------

  /** Execute permission for anyone: `mode & 0o111`. */
  predicate Executable(md: Md) { And(md.mode, 73) != 0 }

  /** One of the three execute bits is set. */
  lemma {:induction false} ExecutableBits(md: Md)
    ensures Executable(md) <==> md.mode % 2 == 1 || md.mode / 8 % 2 == 1 || md.mode / 64 % 2 == 1
  {
    hide And;
    var m := md.mode;
    AndStep(m, 73);
    AndStep(m / 2, 36);
    AndStep(m / 2 / 2, 18);
    AndStep(m / 2 / 2 / 2, 9);
    Halves(m);
    AndStep(m / 8, 9);
    AndStep(m / 8 / 2, 4);
    AndStep(m / 8 / 2 / 2, 2);
    Halves(m / 8);
    AndStep(m / 64, 1);
    AndZero(m / 64 / 2);
    assert m / 8 / 8 == m / 64;
  }

  lemma Halves(x: nat)
    ensures x / 2 / 2 / 2 == x / 8
  {
  }

  predicate ScansElf(md: Md, lib: bool) { Executable(md) || lib }

  function DstOf(ent: Ent, path: Path): Path { if ent.NamedDst? then ent.dst else path }

  datatype Step = Step(st: State, push: seq<Ent>, out: Status)

  function Children(src: Path, names: seq<Bytes>): seq<Ent> {
    if names == [] then [] else [PathEnt(src.(comps := src.comps + [names[0]]))] + Children(src, names[1..])
  }

  /** The archive call, the entries to push and the library names for a node that
      has not been seen yet; None for a symlink that cannot be followed. */
  datatype Plan = Plan(call: Call, push: seq<Ent>, libs: set<Bytes>) | Skip | Refuse

  function PlanElf(st: State, ent: Ent, path: Path, node: Node, md: Md): Plan
  {
    var dst := DstOf(ent, path);
    var kind := TypeOf(md.mode);
    if kind == IFLNK then
      if ent.NamedDst? then Refuse
      else
        match node.canon
        case None => Skip
        case Some(t) =>
          Plan(LinkCall(Render(dst), md, Render(t)),
               [if IsLib(ent) then Lib(Render(t)) else Named(Render(t))], st.libs)
    else if kind == IFREG && md.len > 0 then
      var d := if ScansElf(md, IsLib(ent)) then ElfDeps(st.libs, node.elf) else Deps(st.libs, [], true);
      Plan(FileCall(Render(dst), md, node.content), d.ents, d.libs)
    else if kind == IFDIR then
      Plan(PathCall(Render(dst), md), Children(path, Sort(node.children)), st.libs)
    else Plan(PathCall(Render(dst), md), [], st.libs)
  }

  /** One round of the worklist. */
  function ElfStep(fs: Fs, st: State, ent: Ent): Step
  {
    match Locate(fs, ent)
    case None => Step(st, [], if ent.NamedTry? then Ok else Err(NotFound))
    case Some(path) =>
      var dst := DstOf(ent, path);
      if dst in st.seen then Step(st, [], Ok)
      else
        var node := fs.nodes[path];
        match MdFrom(CUT_PROPS, node.stat)
        case None => Step(st, [], Err(Other))
        case Some(md) => ElfArchive(st, ent, path, node, md)
  }

  function ElfArchive(st: State, ent: Ent, path: Path, node: Node, md: Md): Step
  {
    var dst := DstOf(ent, path);
    var dirs := Dirs(st, Parent(dst), md);
    if dirs.out.Err? then Step(dirs.st, [], dirs.out)
    else
      match PlanElf(dirs.st, ent, path, node, md)
      case Refuse => Step(dirs.st, [], Err(Other))
      case Skip => Step(dirs.st, [], Ok)
      case Plan(call, push, libs) =>
        var put := Put(dirs.st.(libs := libs), dst, call, Scanned(path, IsLib(ent)));
        if put.out.Err? then Step(put.st, [], put.out) else Step(See(put.st, dst), push, Ok)
  }

  // ---- gather_archive_data ------------------------------------------------

  datatype Item = Item(src: Path, dst: Path, ignoreParent: bool)

  function ChildItem(src: Path, dst: Path, name: Bytes): Item {
    Item(src.(comps := src.comps + [name]), dst.(comps := dst.comps + [name]), true)
  }

  function ChildItems(src: Path, dst: Path, names: seq<Bytes>): seq<Item> {
    if names == [] then [] else [ChildItem(src, dst, names[0])] + ChildItems(src, dst, names[1..])
  }

  function DataCall(dst: Path, node: Node, md: Md): Call {
    var kind := TypeOf(md.mode);
    if kind == IFREG && md.len > 0 then FileCall(Render(dst), md, node.content)
    else if kind == IFLNK then LinkCall(Render(dst), md, node.target)
    else PathCall(Render(dst), md)
  }

  datatype DataStep = DataStep(st: State, push: seq<Item>, out: Status)

  /** One round of the tree worklist: the destination is seen before its parents
      and itself are archived. */
  function DataRound(fs: Fs, st: State, item: Item): DataStep
  {
    if item.src !in fs.nodes then DataStep(st, [], Err(NotFound))
    else
      var node := fs.nodes[item.src];
      match MdFrom(CUT_PROPS, node.stat)
      case None => DataStep(st, [], Err(Other))
      case Some(md) =>
        if item.dst in st.seen then DataStep(st, [], Ok)
        else
          var seen := See(st, item.dst);
          var dirs := if item.ignoreParent then Result(seen, Ok) else Dirs(seen, Parent(item.dst), md);
          if dirs.out.Err? then DataStep(dirs.st, [], dirs.out)
          else
            var put := Put(dirs.st, item.dst, DataCall(item.dst, node, md), Copied(item.src));
            DataStep(put.st,
                     if put.out.Ok? && TypeOf(md.mode) == IFDIR
                     then ChildItems(item.src, item.dst, Sort(node.children)) else [],
                     put.out)
  }
}
