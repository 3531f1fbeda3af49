/** Kernel modules with their dependencies: `gather_archive_kmod_and_deps` of
    src/bin/rapido-cut.rs. */
module KmodGather {
  import opened Strings
  import opened Newc
  import opened Cpio
  import opened HostFs
  import opened Gather
  import opened GatherOnce
  import opened GatherParents
  import opened ElfWorklist
  import opened KmodIndex

  datatype KmodCtx = KmodCtx(index: Index, root: Path, dstRoot: Path)

  /** `MODULE_DB_FILES` of src/kmod-parser/src/lib.rs. */
  function ModuleDbFiles(): seq<Bytes> {
    [Encode("modules.dep"), Encode("modules.dep.bin"), Encode("modules.alias"), Encode("modules.alias.bin"),
     Encode("modules.softdep"), Encode("modules.weakdep"), Encode("modules.builtin"), Encode("modules.builtin.bin"),
     Encode("modules.builtin.alias.bin"), Encode("modules.builtin.modinfo"), Encode("modules.symbols"),
     Encode("modules.symbols.bin"), Encode("modules.order"), Encode("modules.fips"), Encode("modules.devname")]
  }

  /** `archive_kmod_path`: the metadata is the path's own, the data follows links. */
  function KmodPath(fs: Fs, st: State, src: Path, dst: Path): Result
  {
    if src !in fs.nodes then Result(st, Err(NotFound))
    else
      var node := fs.nodes[src];
      match MdFrom(CUT_PROPS, node.stat)
      case None => Result(st, Err(Other))
      case Some(md) =>
        var dirs := Dirs(st, Parent(dst), md);
        if dirs.out.Err? then dirs
        else if Dangling(node) then Result(dirs.st, Err(NotFound))
        else Put(dirs.st, dst, FileCall(Render(dst), md, node.content), Copied(src))
  }

  function KmodDst(k: KmodCtx, rel: Bytes): Path { Join(k.dstRoot, rel) }

  /** One module file, unless its destination was seen; it is seen before it is
      looked for. */
  function KmodOne(fs: Fs, k: KmodCtx, st: State, rel: Bytes): Result
  {
    var dst := KmodDst(k, rel);
    if dst in st.seen then Result(st, Ok)
    else KmodPath(fs, See(st, dst), Join(k.root, rel), dst)
  }

  /** Hard dependencies: any failure ends the request. */
  function KmodHard(fs: Fs, k: KmodCtx, st: State, deps: seq<Bytes>): Result
    decreases |deps|
  {
    if deps == [] then Result(st, Ok)
    else
      var r := KmodOne(fs, k, st, deps[0]);
      if r.out.Err? then r else KmodHard(fs, k, r.st, deps[1..])
  }

  /** Files that may be missing. */
  function KmodTry(fs: Fs, k: KmodCtx, st: State, rels: seq<Bytes>): Result
    decreases |rels|
  {
    if rels == [] then Result(st, Ok)
    else
      var r := KmodOne(fs, k, st, rels[0]);
      if r.out == Err(Other) then r else KmodTry(fs, k, r.st, rels[1..])
  }

  /** The files of soft and weak dependencies that name a loadable module. */
  function Loadable(index: Index, names: seq<Bytes>): seq<Bytes>
    decreases |names|
  {
    if names == [] then []
    else
      var m := FindModule(index, names[0]);
      (if m.Some? && !m.value.builtin then [m.value.relPath] else []) + Loadable(index, names[1..])
  }

  function SoftNames(m: Kmod): seq<Bytes> { m.softPre + m.softPost + m.weak }

  function KmodRequest(fs: Fs, k: KmodCtx, st: State, name: Bytes): Result
  {
    match FindModule(k.index, name)
    case None => Result(st, Err(NotFound))
    case Some(m) =>
      if m.builtin || KmodDst(k, m.relPath) in st.seen then Result(st, Ok)
      else
        var own := KmodOne(fs, k, st, m.relPath);
        if own.out.Err? then own
        else
          var hard := KmodHard(fs, k, own.st, m.hard);
          if hard.out.Err? then hard
          else KmodTry(fs, k, hard.st, Loadable(k.index, SoftNames(m)))
  }

  /** `GatherKmods::init` archives the module database files that exist. */
  function KmodInit(fs: Fs, k: KmodCtx, st: State): Result { KmodTry(fs, k, st, ModuleDbFiles()) }

  // ---- what every request keeps -------------------------------------------

  /** Library names untouched, and nothing archived counts as scanned. */
  ghost predicate Calm(a: State, b: State) {
    && b.libs == a.libs && a.log <= b.log
    && forall i :: |a.log| <= i < |b.log| ==> !b.log[i].origin.Scanned?
  }

  lemma CalmTrans(a: State, b: State, c: State)
    requires Calm(a, b) && Calm(b, c)
    ensures Calm(a, c)
  {
    forall i | |a.log| <= i < |c.log| ensures !c.log[i].origin.Scanned? {
      if i < |b.log| { assert c.log[i] == b.log[i]; }
    }
  }

  lemma {:induction false} CalmPut(a: State, dst: Path, call: Call, origin: Origin)
    requires !origin.Scanned?
    ensures Calm(a, Put(a, dst, call, origin).st)
  {
    hide Accepted;
  }

  lemma {:induction false} CalmDirs(st: State, path: Option<Path>, md: Md)
    ensures Calm(st, Dirs(st, path, md).st)
  {
    hide Dirs;
    DirsMocked(st, path, md);
  }

  /** See a path, archive its parents, archive it. */
  lemma {:induction false} SeeDirsPut(st: State, dst: Path, md: Md, call: Call, origin: Origin)
    requires dst !in st.seen && call.path == Render(dst) && !origin.Scanned? && !ByAutorun(origin)
    ensures var dirs := Dirs(See(st, dst), Parent(dst), md);
            var put := Put(dirs.st, dst, call, origin);
            && Ext(st, dirs.st) && Calm(st, dirs.st)
            && Ext(st, put.st) && Calm(st, put.st)
            && (ParentsFirst(st) ==> ParentsFirst(dirs.st) && (dirs.out.Ok? ==> ParentsFirst(put.st)))
  {
    hide Ext, Calm, Dirs, ParentsFirst, Accepted, Render, Supported;
    var seen := See(st, dst);
    var dirs := Dirs(seen, Parent(dst), md);
    DirsExt(seen, dst, md);
    ExtSee(st, dst);
    ExtTrans(st, seen, dirs.st);
    ExtSeePut(st, dirs.st, dst, call, origin);
    CalmSee(st, dst);
    CalmDirs(seen, Parent(dst), md);
    CalmTrans(st, seen, dirs.st);
    CalmPut(dirs.st, dst, call, origin);
    CalmTrans(st, dirs.st, Put(dirs.st, dst, call, origin).st);
    if ParentsFirst(st) { SeeDirsPutParents(st, dst, md, call, origin); }
  }

  lemma CalmSee(st: State, p: Path)
    ensures Calm(st, See(st, p))
  {
  }

  lemma {:induction false} SeeDirsPutParents(st: State, dst: Path, md: Md, call: Call, origin: Origin)
    requires dst !in st.seen && call.path == Render(dst) && ParentsFirst(st) && !ByAutorun(origin)
    ensures var dirs := Dirs(See(st, dst), Parent(dst), md);
            var put := Put(dirs.st, dst, call, origin);
            ParentsFirst(dirs.st) && (dirs.out.Ok? ==> ParentsFirst(put.st))
  {
    hide Ext, Dirs, ParentsFirst, Accepted, Render, Supported;
    DirsSee(st, dst, md);
    var dirs := Dirs(st, Parent(dst), md);
    DirsParents(st, dst, md);
    DirsExt(st, dst, md);
    ExtSee(dirs.st, dst);
    ParentsKept(dirs.st, See(dirs.st, dst));
    if dirs.out.Ok? {
      PutSupported(dirs.st, dst, call, origin);
      SeePutOrder(dirs.st, dst, call, origin);
    }
  }

  /** The invariants of whole runs, as one relation between two states. */
  ghost predicate Sound(a: State, b: State) {
    Ext(a, b) && Calm(a, b) && (ParentsFirst(a) ==> ParentsFirst(b))
  }

  lemma {:induction false} SoundTrans(a: State, b: State, c: State)
    requires Sound(a, b) && Sound(b, c)
    ensures Sound(a, c)
  {
    hide Ext, Calm, ParentsFirst;
    ExtTrans(a, b, c);
    CalmTrans(a, b, c);
  }

  lemma SoundSelf(a: State)
    ensures Sound(a, a)
  {
    hide ParentsFirst;
    ExtSelf(a);
  }

  lemma {:induction false} SoundSee(a: State, p: Path)
    ensures Sound(a, See(a, p))
  {
    hide ParentsFirst, Ext, Calm;
    ExtSee(a, p);
    CalmSee(a, p);
    if ParentsFirst(a) { ParentsKept(a, See(a, p)); }
  }

  lemma {:induction false} KmodOneSound(fs: Fs, k: KmodCtx, st: State, rel: Bytes)
    ensures var r := KmodOne(fs, k, st, rel);
            && Sound(st, r.st)
            && KmodDst(k, rel) in r.st.seen
            && (r.out.Ok? && KmodDst(k, rel) !in st.seen ==> Archived(r.st.log, |r.st.log|, KmodDst(k, rel)))
  {
    hide Ext, Calm, Dirs, ParentsFirst, Accepted, Render, MdFrom, KmodDst, Archived, Dangling, Join;
    SoundSelf(st);
    var dst := KmodDst(k, rel);
    var src := Join(k.root, rel);
    if dst !in st.seen {
      SoundSee(st, dst);
      if src in fs.nodes && MdFrom(CUT_PROPS, fs.nodes[src].stat).Some? {
        var md := MdFrom(CUT_PROPS, fs.nodes[src].stat).value;
        var call := FileCall(Render(dst), md, fs.nodes[src].content);
        SeeDirsPut(st, dst, md, call, Copied(src));
        var dirs := Dirs(See(st, dst), Parent(dst), md);
        DirsExt(See(st, dst), dst, md);
        ExtSeen(See(st, dst), dirs.st);
        LastArchived(dirs.st, dst, call, Copied(src));
      }
    }
  }

  lemma {:induction false} LastArchived(st: State, dst: Path, call: Call, origin: Origin)
    ensures var put := Put(st, dst, call, origin);
            && put.st.seen == st.seen
            && (put.out.Ok? ==> Archived(put.st.log, |put.st.log|, dst))
  {
    hide Accepted;
    var put := Put(st, dst, call, origin);
    if put.out.Ok? { assert put.st.log[|st.log|].dst == dst; }
  }

  lemma {:induction false} KmodHardSound(fs: Fs, k: KmodCtx, st: State, deps: seq<Bytes>)
    ensures Sound(st, KmodHard(fs, k, st, deps).st)
    decreases |deps|
  {
    hide Sound, KmodOne;
    SoundSelf(st);
    if deps != [] {
      var r := KmodOne(fs, k, st, deps[0]);
      KmodOneSound(fs, k, st, deps[0]);
      if r.out.Ok? {
        KmodHardSound(fs, k, r.st, deps[1..]);
        SoundTrans(st, r.st, KmodHard(fs, k, r.st, deps[1..]).st);
      }
    }
  }

  lemma {:induction false} KmodTrySound(fs: Fs, k: KmodCtx, st: State, rels: seq<Bytes>)
    ensures Sound(st, KmodTry(fs, k, st, rels).st)
    decreases |rels|
  {
    hide Sound, KmodOne;
    SoundSelf(st);
    if rels != [] {
      var r := KmodOne(fs, k, st, rels[0]);
      KmodOneSound(fs, k, st, rels[0]);
      if r.out != Err(Other) {
        KmodTrySound(fs, k, r.st, rels[1..]);
        SoundTrans(st, r.st, KmodTry(fs, k, r.st, rels[1..]).st);
      }
    }
  }

  lemma {:induction false} KmodRequestSound(fs: Fs, k: KmodCtx, st: State, name: Bytes)
    ensures Sound(st, KmodRequest(fs, k, st, name).st)
  {
    hide Sound, KmodOne, KmodHard, KmodTry, FindModule, Loadable, KmodDst;
    SoundSelf(st);
    var found := FindModule(k.index, name);
    if found.Some? {
      var m := found.value;
      var own := KmodOne(fs, k, st, m.relPath);
      KmodOneSound(fs, k, st, m.relPath);
      var hard := KmodHard(fs, k, own.st, m.hard);
      KmodHardSound(fs, k, own.st, m.hard);
      SoundTrans(st, own.st, hard.st);
      var soft := KmodTry(fs, k, hard.st, Loadable(k.index, SoftNames(m)));
      KmodTrySound(fs, k, hard.st, Loadable(k.index, SoftNames(m)));
      SoundTrans(st, hard.st, soft.st);
    }
  }
}
