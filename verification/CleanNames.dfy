/** Where the destinations of a run come from (src/bin/rapido-cut.rs): every component
    of an archived path is a component of a host path, of a name in a directory, of a
    module path or of a name in the manifest. A property of those holds of all
    destinations, so conditions on an archive can be checked before the run. */
module CleanNames {
  import opened Strings
  import opened Newc
  import opened Cpio
  import opened HostFs
  import opened Numbers
  import opened Gather
  import opened ElfWorklist
  import opened TreeWorklist
  import opened TreeListing
  import opened KmodIndex
  import opened KmodGather
  import opened KmodClosure
  import opened Manifest
  import opened Autorun

  /** A property of path components. */
  type Prop = Bytes -> bool

  predicate AllComps(ok: Prop, comps: seq<Bytes>) { forall i :: 0 <= i < |comps| ==> ok(comps[i]) }

  predicate Clean(ok: Prop, p: Path) { p.absolute && AllComps(ok, p.comps) }

  // ---- the conditions -----------------------------------------------------

  /** The host: its paths, the names in its directories; the empty relative path is no
      file. */
  predicate CleanHost(ok: Prop, fs: Fs) {
    && Path(false, []) !in fs.nodes
    && forall p :: p in fs.nodes ==> AllComps(ok, p.comps) && AllComps(ok, fs.nodes[p].children)
  }

  predicate CleanRels(ok: Prop, k: KmodCtx, rels: seq<Bytes>) {
    forall i :: 0 <= i < |rels| ==> Clean(ok, KmodDst(k, rels[i]))
  }

  /** The module index, if there is one. */
  ghost predicate CleanModules(ok: Prop, k: KmodCtx) {
    && CleanRels(ok, k, ModuleDbFiles())
    && forall m :: LoadableModule(k, m) ==> Clean(ok, KmodDst(k, m.relPath)) && CleanRels(ok, k, m.hard)
  }

  /** The destination a line names itself, and the locations of `autorun` if `all`. */
  predicate CleanLine(ok: Prop, env: Env, line: Line, all: bool) {
    line != [] ==>
      && (line[0] in {"dir", "slink", "file", "tree"} ==> CleanName(ok, env, Arg(line[1..], 0)))
      && (all && line[0] == "autorun" ==> forall i :: 1 <= i < |line| ==> CleanName(ok, env, Some(line[i])))
  }

  predicate CleanName(ok: Prop, env: Env, name: Option<string>) {
    AbsName(env, name).Some? ==> Clean(ok, AbsName(env, name).value)
  }

  ghost predicate CleanEnv(ok: Prop, env: Env) {
    CleanHost(ok, env.fs) && (env.kmods.Some? ==> CleanModules(ok, env.kmods.value))
  }

  predicate CleanLines(ok: Prop, env: Env, lines: seq<Line>, all: bool) {
    forall i :: 0 <= i < |lines| ==> CleanLine(ok, env, lines[i], all)
  }

  /** Numbering a good name keeps it good. */
  ghost predicate Numberable(ok: Prop) {
    AllComps(ok, AutorunDir().comps) && forall idx, name :: ok(name) ==> ok(Decimal3(idx) + [45] + name)
  }

  // ---- what is archived in between ----------------------------------------

  /** All entries from `a` to `b`, or all but those of `autorun` lines. */
  ghost predicate CleanLog(ok: Prop, all: bool, a: State, b: State) {
    && a.log <= b.log
    && forall i :: |a.log| <= i < |b.log| && (all || !ByAutorun(b.log[i].origin)) ==> Clean(ok, b.log[i].dst)
  }

  lemma CleanSame(ok: Prop, all: bool, a: State, b: State)
    requires a.log == b.log
    ensures CleanLog(ok, all, a, b)
  {
  }

  lemma {:induction false} CleanTrans(ok: Prop, all: bool, a: State, b: State, c: State)
    requires CleanLog(ok, all, a, b) && CleanLog(ok, all, b, c)
    ensures CleanLog(ok, all, a, c)
  {
    hide Clean;
    forall i | |a.log| <= i < |c.log| && (all || !ByAutorun(c.log[i].origin)) ensures Clean(ok, c.log[i].dst) {
      if i < |b.log| { assert c.log[i] == b.log[i]; }
    }
  }

  lemma {:induction false} CleanPut(ok: Prop, all: bool, st: State, dst: Path, call: Call, origin: Origin)
    requires Clean(ok, dst)
    ensures CleanLog(ok, all, st, Put(st, dst, call, origin).st)
  {
    hide Clean, Accepted;
  }

  lemma {:induction false} DirsFromClean(ok: Prop, all: bool, st: State, here: seq<Bytes>, comps: seq<Bytes>, md: Md)
    requires AllComps(ok, here) && AllComps(ok, comps)
    ensures CleanLog(ok, all, st, DirsFrom(st, here, comps, md).st)
    decreases |comps|
  {
    hide CleanLog, Put, Render;
    CleanSame(ok, all, st, st);
    if comps != [] && comps[0] == DOT_DOT && here != [] {
      DirsFromClean(ok, all, st, here[..|here| - 1], comps[1..], md);
    } else if comps != [] && comps[0] != DOT_DOT {
      var next := here + [comps[0]];
      var p := Path(true, next);
      if p in st.seen {
        DirsFromClean(ok, all, st, next, comps[1..], md);
      } else {
        var call := PathCall(Render(p), md);
        var put := Put(See(st, p), p, call, Mocked);
        CleanSame(ok, all, st, See(st, p));
        CleanPut(ok, all, See(st, p), p, call, Mocked);
        CleanTrans(ok, all, st, See(st, p), put.st);
        DirsFromClean(ok, all, put.st, next, comps[1..], md);
        CleanTrans(ok, all, st, put.st, DirsFrom(put.st, next, comps[1..], md).st);
      }
    }
  }

  lemma {:induction false} DirsClean(ok: Prop, all: bool, st: State, dst: Path, md: Md)
    requires AllComps(ok, dst.comps)
    ensures CleanLog(ok, all, st, Dirs(st, Parent(dst), md).st)
    ensures Dirs(st, Parent(dst), md).out.Ok? && dst != Path(false, []) ==> Clean(ok, dst)
  {
    hide CleanLog, DirsFrom;
    CleanSame(ok, all, st, st);
    var p := Parent(dst);
    if p.Some? {
      assert AllComps(ok, p.value.comps);
      DirsFromClean(ok, all, st, [], p.value.comps, ParentMd(md));
    }
  }

  /** Parents, then the entry, then whatever is only seen. */
  lemma {:induction false} CleanUnder(ok: Prop, all: bool, st: State, dst: Path, md: Md, call: Call, origin: Origin)
    requires AllComps(ok, dst.comps) && dst != Path(false, [])
    ensures var dirs := Dirs(st, Parent(dst), md);
            && CleanLog(ok, all, st, dirs.st)
            && (dirs.out.Ok? ==> CleanLog(ok, all, st, Put(dirs.st, dst, call, origin).st))
  {
    hide CleanLog, Clean, Dirs, Put;
    var dirs := Dirs(st, Parent(dst), md);
    DirsClean(ok, all, st, dst, md);
    if dirs.out.Ok? {
      CleanPut(ok, all, dirs.st, dst, call, origin);
      CleanTrans(ok, all, st, dirs.st, Put(dirs.st, dst, call, origin).st);
    }
  }

  lemma {:induction false} PutUnderClean(ok: Prop, all: bool, st: State, dst: Path, md: Md, call: Call, origin: Origin)
    requires Clean(ok, dst)
    ensures CleanLog(ok, all, st, PutUnder(st, dst, md, call, origin).st)
  {
    hide CleanLog, Dirs, Put;
    CleanUnder(ok, all, st, dst, md, call, origin);
    var put := Put(Dirs(st, Parent(dst), md).st, dst, call, origin);
    if Dirs(st, Parent(dst), md).out.Ok? {
      CleanSame(ok, all, put.st, See(put.st, dst));
      CleanTrans(ok, all, st, put.st, See(put.st, dst));
    }
  }

  // ---- the gatherers ------------------------------------------------------

  lemma {:induction false} ElfStepClean(ok: Prop, all: bool, fs: Fs, st: State, ent: Ent)
    requires CleanHost(ok, fs) && !ent.NamedDst?
    ensures CleanLog(ok, all, st, ElfStep(fs, st, ent).st)
  {
    hide CleanLog, AllComps, Locate, MdFrom, ElfArchive;
    CleanSame(ok, all, st, st);
    var path := Locate(fs, ent);
    if path.Some? && MdFrom(CUT_PROPS, fs.nodes[path.value].stat).Some? {
      var node := fs.nodes[path.value];
      ElfArchiveClean(ok, all, st, ent, path.value, node, MdFrom(CUT_PROPS, node.stat).value);
    }
  }

  lemma {:induction false} ElfArchiveClean(ok: Prop, all: bool, st: State, ent: Ent, path: Path, node: Node, md: Md)
    requires AllComps(ok, path.comps) && path != Path(false, []) && !ent.NamedDst?
    ensures CleanLog(ok, all, st, ElfArchive(st, ent, path, node, md).st)
  {
    hide CleanLog, AllComps, Dirs, PlanElf, Put;
    var dirs := Dirs(st, Parent(path), md);
    DirsClean(ok, all, st, path, md);
    var plan := PlanElf(dirs.st, ent, path, node, md);
    if dirs.out.Ok? && plan.Plan? {
      var mid, origin := dirs.st.(libs := plan.libs), Scanned(path, IsLib(ent));
      CleanSame(ok, all, dirs.st, mid);
      CleanTrans(ok, all, st, dirs.st, mid);
      CleanPut(ok, all, mid, path, plan.call, origin);
      var put := Put(mid, path, plan.call, origin);
      CleanTrans(ok, all, st, mid, put.st);
      CleanSame(ok, all, put.st, See(put.st, path));
      CleanTrans(ok, all, st, put.st, See(put.st, path));
    }
  }

  lemma {:induction false} ElfsClean(ok: Prop, all: bool, fs: Fs, stack: seq<Ent>, st: State)
    requires CleanHost(ok, fs) && forall i :: 0 <= i < |stack| ==> !stack[i].NamedDst?
    ensures CleanLog(ok, all, st, Elfs(fs, stack, st).st)
    decreases Renamed(stack), Unseen(fs, st), |stack|
  {
    hide CleanLog, CleanHost, ElfStep, Unseen;
    CleanSame(ok, all, st, st);
    if stack != [] {
      var ent, rest := stack[|stack| - 1], stack[..|stack| - 1];
      var r := ElfStep(fs, st, ent);
      ElfStepClean(ok, all, fs, st, ent);
      if r.out.Ok? {
        StepMeasure(fs, st, ent);
        UnseenShrinks(fs, st, r.st);
        RenamedConcat(rest, r.push);
        ElfsClean(ok, all, fs, rest + r.push, r.st);
        CleanTrans(ok, all, st, r.st, Elfs(fs, rest + r.push, r.st).st);
      }
    }
  }

  predicate CleanItems(ok: Prop, items: seq<Item>) { forall i :: 0 <= i < |items| ==> Clean(ok, items[i].dst) }

  lemma {:induction false} DataRoundClean(ok: Prop, all: bool, fs: Fs, st: State, item: Item)
    requires CleanHost(ok, fs) && Clean(ok, item.dst)
    ensures CleanLog(ok, all, st, DataRound(fs, st, item).st)
    ensures CleanItems(ok, DataRound(fs, st, item).push)
  {
    hide CleanLog, AllComps, MdFrom, Dirs, DataCall, Put, Sort, ChildItems;
    CleanSame(ok, all, st, st);
    if item.src in fs.nodes && item.dst !in st.seen && MdFrom(CUT_PROPS, fs.nodes[item.src].stat).Some? {
      var node := fs.nodes[item.src];
      var md := MdFrom(CUT_PROPS, node.stat).value;
      var seen := See(st, item.dst);
      var call := DataCall(item.dst, node, md);
      CleanSame(ok, all, st, seen);
      CleanUnder(ok, all, seen, item.dst, md, call, Copied(item.src));
      CleanPut(ok, all, seen, item.dst, call, Copied(item.src));
      var dirs := Dirs(seen, Parent(item.dst), md);
      CleanTrans(ok, all, st, seen, dirs.st);
      if dirs.out.Ok? { CleanTrans(ok, all, st, seen, Put(dirs.st, item.dst, call, Copied(item.src)).st); }
      CleanTrans(ok, all, st, seen, Put(seen, item.dst, call, Copied(item.src)).st);
      SortClean(ok, node.children);
      ChildItemsClean(ok, item.src, item.dst, Sort(node.children));
    }
  }

  lemma {:induction false} SortClean(ok: Prop, names: seq<Bytes>)
    requires AllComps(ok, names)
    ensures AllComps(ok, Sort(names))
  {
    hide Sort;
    SortSorts(names);
    forall i | 0 <= i < |Sort(names)| ensures ok(Sort(names)[i]) {
      assert Sort(names)[i] in multiset(Sort(names));
      assert Sort(names)[i] in names;
    }
  }

  lemma {:induction false} ChildItemsClean(ok: Prop, src: Path, dst: Path, names: seq<Bytes>)
    requires Clean(ok, dst) && AllComps(ok, names)
    ensures CleanItems(ok, ChildItems(src, dst, names))
    decreases |names|
  {
    if names != [] { ChildItemsClean(ok, src, dst, names[1..]); }
  }

  lemma {:induction false} DataClean(ok: Prop, all: bool, fs: Fs, src0: Path, dst0: Path, items: seq<Item>, st: State)
    requires AllRelated(items, src0, dst0) && CleanHost(ok, fs) && CleanItems(ok, items)
    ensures CleanLog(ok, all, st, DataRun(fs, src0, dst0, items, st).st)
    decreases Untouched(fs, src0, dst0, st), |items|
  {
    hide CleanLog, CleanHost, Clean, DataRound, Untouched, Related, DataRun, AllRelated;
    CleanSame(ok, all, st, st);
    if items == [] {
      DataEmpty(fs, src0, dst0, st);
    } else {
      var item, rest := items[|items| - 1], items[..|items| - 1];
      assert items == rest + [item];
      RelatedConcat(items, items, src0, dst0);
      DataStepIs(fs, src0, dst0, rest, item, st);
      DataRoundClean(ok, all, fs, st, item);
      var r := DataRound(fs, st, item);
      if r.out.Ok? {
        DataClean(ok, all, fs, src0, dst0, rest + r.push, r.st);
        CleanTrans(ok, all, st, r.st, DataRun(fs, src0, dst0, rest + r.push, r.st).st);
      }
    }
  }

  lemma {:induction false} KmodOneClean(ok: Prop, all: bool, fs: Fs, k: KmodCtx, st: State, rel: Bytes)
    requires Clean(ok, KmodDst(k, rel))
    ensures CleanLog(ok, all, st, KmodOne(fs, k, st, rel).st)
  {
    hide CleanLog, KmodDst, Join, Dirs, Put, MdFrom, Dangling;
    CleanSame(ok, all, st, st);
    var dst, src := KmodDst(k, rel), Join(k.root, rel);
    var seen := See(st, dst);
    CleanSame(ok, all, st, seen);
    if dst !in st.seen && src in fs.nodes && MdFrom(CUT_PROPS, fs.nodes[src].stat).Some? {
      var node := fs.nodes[src];
      var md := MdFrom(CUT_PROPS, node.stat).value;
      var call := FileCall(Render(dst), md, node.content);
      CleanUnder(ok, all, seen, dst, md, call, Copied(src));
      var dirs := Dirs(seen, Parent(dst), md);
      CleanTrans(ok, all, st, seen, dirs.st);
      if dirs.out.Ok? { CleanTrans(ok, all, st, seen, Put(dirs.st, dst, call, Copied(src)).st); }
    }
  }

  lemma {:induction false} KmodHardClean(ok: Prop, all: bool, fs: Fs, k: KmodCtx, st: State, rels: seq<Bytes>)
    requires CleanRels(ok, k, rels)
    ensures CleanLog(ok, all, st, KmodHard(fs, k, st, rels).st)
    decreases |rels|
  {
    hide CleanLog, Clean, KmodOne, KmodDst;
    CleanSame(ok, all, st, st);
    if rels != [] {
      var r := KmodOne(fs, k, st, rels[0]);
      KmodOneClean(ok, all, fs, k, st, rels[0]);
      KmodHardClean(ok, all, fs, k, r.st, rels[1..]);
      CleanTrans(ok, all, st, r.st, KmodHard(fs, k, r.st, rels[1..]).st);
    }
  }

  lemma {:induction false} KmodTryClean(ok: Prop, all: bool, fs: Fs, k: KmodCtx, st: State, rels: seq<Bytes>)
    requires CleanRels(ok, k, rels)
    ensures CleanLog(ok, all, st, KmodTry(fs, k, st, rels).st)
    decreases |rels|
  {
    hide CleanLog, Clean, KmodOne, KmodDst;
    CleanSame(ok, all, st, st);
    if rels != [] {
      var r := KmodOne(fs, k, st, rels[0]);
      KmodOneClean(ok, all, fs, k, st, rels[0]);
      KmodTryClean(ok, all, fs, k, r.st, rels[1..]);
      CleanTrans(ok, all, st, r.st, KmodTry(fs, k, r.st, rels[1..]).st);
    }
  }

  lemma {:induction false} LoadableClean(ok: Prop, k: KmodCtx, names: seq<Bytes>)
    requires CleanModules(ok, k)
    ensures CleanRels(ok, k, Loadable(k.index, names))
    decreases |names|
  {
    hide Clean, KmodDst, FindModule, ModuleDbFiles;
    if names != [] {
      LoadableClean(ok, k, names[1..]);
      FindIsModule(k, names[0]);
    }
  }

  lemma {:induction false} KmodRequestClean(ok: Prop, all: bool, fs: Fs, k: KmodCtx, st: State, name: Bytes)
    requires CleanModules(ok, k)
    ensures CleanLog(ok, all, st, KmodRequest(fs, k, st, name).st)
  {
    hide CleanLog, Clean, CleanRels, KmodOne, KmodHard, KmodTry, FindModule, Loadable, KmodDst, ModuleDbFiles;
    CleanSame(ok, all, st, st);
    FindIsModule(k, name);
    var found := FindModule(k.index, name);
    if found.Some? && !found.value.builtin {
      var m := found.value;
      assert LoadableModule(k, m);
      var own := KmodOne(fs, k, st, m.relPath);
      KmodOneClean(ok, all, fs, k, st, m.relPath);
      var hard := KmodHard(fs, k, own.st, m.hard);
      KmodHardClean(ok, all, fs, k, own.st, m.hard);
      CleanTrans(ok, all, st, own.st, hard.st);
      var rels := Loadable(k.index, SoftNames(m));
      LoadableClean(ok, k, SoftNames(m));
      KmodTryClean(ok, all, fs, k, hard.st, rels);
      CleanTrans(ok, all, st, hard.st, KmodTry(fs, k, hard.st, rels).st);
    }
  }

  // ---- lines --------------------------------------------------------------

  lemma {:induction false} KmodLineClean(ok: Prop, all: bool, env: Env, run: Run, args: seq<string>, try_: bool)
    requires CleanEnv(ok, env)
    ensures CleanLog(ok, all, run.st, KmodLine(env, run, args, try_).run.st)
  {
    hide CleanLog, CleanHost, CleanRels, LoadableModule, KmodTry, KmodRequest, ModuleDbFiles, Encode;
    CleanSame(ok, all, run.st, run.st);
    if args != [] && env.kmods.Some? {
      var k := env.kmods.value;
      KmodTryClean(ok, all, env.fs, k, run.st, ModuleDbFiles());
      var init := if run.kmodsReady then Result(run.st, Ok) else KmodInit(env.fs, k, run.st);
      KmodRequestClean(ok, all, env.fs, k, init.st, Encode(args[0]));
      CleanTrans(ok, all, run.st, init.st, KmodRequest(env.fs, k, init.st, Encode(args[0])).st);
    }
  }

  lemma {:induction false} NamedLinesClean(ok: Prop, all: bool, env: Env, st: State, args: seq<string>)
    requires CleanHost(ok, env.fs) && CleanName(ok, env, Arg(args, 0))
    ensures CleanLog(ok, all, st, DirLine(env, st, args).st)
    ensures CleanLog(ok, all, st, SlinkLine(env, st, args).st)
    ensures CleanLog(ok, all, st, FileLine(env, st, args).st)
    ensures CleanLog(ok, all, st, TreeLine(env, st, args).st)
  {
    hide *;
    DirLineClean(ok, all, env, st, args);
    SlinkLineClean(ok, all, env, st, args);
    FileLineClean(ok, all, env, st, args);
    TreeLineClean(ok, all, env, st, args);
  }

  lemma {:induction false} DirLineClean(ok: Prop, all: bool, env: Env, st: State, args: seq<string>)
    requires CleanName(ok, env, Arg(args, 0))
    ensures CleanLog(ok, all, st, DirLine(env, st, args).st)
  {
    hide CleanLog, Clean, AbsName, PutUnder, Render;
    CleanSame(ok, all, st, st);
    var p := AbsName(env, Arg(args, 0));
    if p.Some? { PutUnderClean(ok, all, st, p.value, DIR_MD, PathCall(Render(p.value), DIR_MD), Mocked); }
  }

  lemma {:induction false} SlinkLineClean(ok: Prop, all: bool, env: Env, st: State, args: seq<string>)
    requires CleanName(ok, env, Arg(args, 0))
    ensures CleanLog(ok, all, st, SlinkLine(env, st, args).st)
  {
    hide CleanLog, Clean, AbsName, NameSub, PutUnder, Render;
    CleanSame(ok, all, st, st);
    var p, target := AbsName(env, Arg(args, 0)), NameSub(env, Arg(args, 1));
    if p.Some? && target.Some? {
      PutUnderClean(ok, all, st, p.value, SLINK_MD, LinkCall(Render(p.value), SLINK_MD, target.value), Mocked);
    }
  }

  lemma {:induction false} FileLineClean(ok: Prop, all: bool, env: Env, st: State, args: seq<string>)
    requires CleanName(ok, env, Arg(args, 0))
    ensures CleanLog(ok, all, st, FileLine(env, st, args).st)
  {
    hide CleanLog, Clean, AbsName, NameSub, PutUnder, Render, OpenNode, MdFrom, ParsePath;
    CleanSame(ok, all, st, st);
    var p, src := AbsName(env, Arg(args, 0)), NameSub(env, Arg(args, 1));
    if p.Some? {
      PutUnderClean(ok, all, st, p.value, DEFAULT_MD, PathCall(Render(p.value), DEFAULT_MD), Mocked);
      if src.Some? && OpenNode(env.fs, ParsePath(src.value)).Some? {
        var node := OpenNode(env.fs, ParsePath(src.value)).value;
        if MdFrom(CUT_PROPS, node.stat).Some? {
          var md := MdFrom(CUT_PROPS, node.stat).value;
          PutUnderClean(ok, all, st, p.value, md, FileCall(Render(p.value), md, node.content), Copied(ParsePath(src.value)));
        }
      }
    }
  }

  lemma {:induction false} TreeLineClean(ok: Prop, all: bool, env: Env, st: State, args: seq<string>)
    requires CleanHost(ok, env.fs) && CleanName(ok, env, Arg(args, 0))
    ensures CleanLog(ok, all, st, TreeLine(env, st, args).st)
  {
    hide CleanLog, Clean, CleanHost, AbsName, NameSub, DataRun, AllRelated, ParsePath;
    CleanSame(ok, all, st, st);
    var dst, src := AbsName(env, Arg(args, 0)), NameSub(env, Arg(args, 1));
    if dst.Some? && src.Some? {
      RootRelated(ParsePath(src.value), dst.value);
      DataClean(ok, all, env.fs, ParsePath(src.value), dst.value, [Item(ParsePath(src.value), dst.value, false)], st);
    }
  }

  lemma {:induction false} BinLineClean(ok: Prop, all: bool, env: Env, st: State, args: seq<string>, try_: bool)
    requires CleanHost(ok, env.fs)
    ensures CleanLog(ok, all, st, BinLine(env, st, args, try_).st)
  {
    hide CleanLog, CleanHost, NameSub, Elfs;
    CleanSame(ok, all, st, st);
    var src := NameSub(env, Arg(args, 0));
    if src.Some? { ElfsClean(ok, all, env.fs, [if try_ then NamedTry(src.value) else Named(src.value)], st); }
  }

  lemma {:induction false} AutorunOneClean(ok: Prop, all: bool, env: Env, run: Run, loc: string)
    requires all ==> Numberable(ok) && CleanName(ok, env, Some(loc))
    ensures CleanLog(ok, all, run.st, AutorunOne(env, run, loc).run.st)
  {
    hide AbsName, OpenNode, MdFrom, Accepted, Render, AutorunDir, Decimal3;
    var src := AbsName(env, Some(loc));
    if all && src.Some? && src.value.comps != [] {
      var name := src.value.comps[|src.value.comps| - 1];
      assert ok(name);
      AutorunPathsClean(ok, run.autorun, name);
    }
  }

  lemma AutorunPathsClean(ok: Prop, idx: nat, name: Bytes)
    requires Numberable(ok) && ok(name)
    ensures Clean(ok, AutorunDir()) && Clean(ok, AutorunDst(idx, name))
  {
    hide Decimal3, Encode;
  }

  lemma {:induction false} AutorunAllClean(ok: Prop, all: bool, env: Env, run: Run, locs: seq<string>)
    requires all ==> Numberable(ok) && forall i :: 0 <= i < |locs| ==> CleanName(ok, env, Some(locs[i]))
    ensures CleanLog(ok, all, run.st, AutorunAll(env, run, locs).run.st)
    decreases |locs|
  {
    hide CleanLog, CleanName, AutorunOne, Numberable;
    CleanSame(ok, all, run.st, run.st);
    if locs != [] {
      var r := AutorunOne(env, run, locs[0]);
      AutorunOneClean(ok, all, env, run, locs[0]);
      AutorunAllClean(ok, all, env, r.run, locs[1..]);
      CleanTrans(ok, all, run.st, r.run.st, AutorunAll(env, r.run, locs[1..]).run.st);
    }
  }

  lemma {:induction false} OtherClean(ok: Prop, all: bool, env: Env, run: Run, etype: string, args: seq<string>)
    requires CleanEnv(ok, env) && etype != "autorun"
    requires etype in {"dir", "slink", "file", "tree"} ==> CleanName(ok, env, Arg(args, 0))
    ensures CleanLog(ok, all, run.st, Directive(env, run, etype, args).run.st)
  {
    hide CleanLog, CleanName, CleanHost, CleanModules, DirLine, SlinkLine, FileLine, BinLine, KmodLine, TreeLine, AbsName, AutorunLine;
    CleanSame(ok, all, run.st, run.st);
    CleanSame(ok, all, run.st, FilterLine(env, run.st, args).st);
    BinLineClean(ok, all, env, run.st, args, false);
    BinLineClean(ok, all, env, run.st, args, true);
    KmodLineClean(ok, all, env, run, args, false);
    KmodLineClean(ok, all, env, run, args, true);
    if etype in {"dir", "slink", "file", "tree"} { NamedLinesClean(ok, all, env, run.st, args); }
  }

  lemma {:induction false} LineClean(ok: Prop, all: bool, env: Env, run: Run, line: Line)
    requires CleanEnv(ok, env) && CleanLine(ok, env, line, all) && (all ==> Numberable(ok))
    ensures CleanLog(ok, all, run.st, LineRun(env, run, line).run.st)
  {
    hide CleanLog, CleanName, CleanEnv, Numberable, Directive, AutorunAll;
    CleanSame(ok, all, run.st, run.st);
    if !IsBlank(line) {
      if line[0] == "autorun" {
        forall i | all && 0 <= i < |line[1..]| ensures CleanName(ok, env, Some(line[1..][i])) { assert line[1..][i] == line[i + 1]; }
        AutorunIs(env, run, line[1..]);
        AutorunAllClean(ok, all, env, run, line[1..]);
      } else {
        OtherClean(ok, all, env, run, line[0], line[1..]);
      }
    }
  }

  /** Over any run, whatever is archived has clean components if the host, the modules
      and the names in the manifest have. */
  lemma {:induction false} RunClean(ok: Prop, all: bool, env: Env, run: Run, lines: seq<Line>)
    requires CleanEnv(ok, env) && CleanLines(ok, env, lines, all) && (all ==> Numberable(ok))
    ensures CleanLog(ok, all, run.st, RunLines(env, run, lines).run.st)
    decreases |lines|
  {
    hide CleanLog, CleanLine, CleanEnv, Numberable, LineRun;
    CleanSame(ok, all, run.st, run.st);
    if lines != [] {
      var r := LineRun(env, run, lines[0]);
      LineClean(ok, all, env, run, lines[0]);
      RunClean(ok, all, env, r.run, lines[1..]);
      CleanTrans(ok, all, run.st, r.run.st, RunLines(env, r.run, lines[1..]).run.st);
    }
  }
}
