/** What a run of rapido-cut archives is what the host has: metadata, file contents
    and symlink targets, from the manifest line to the bytes of the archive. */
module Fidelity {
  import opened Strings
  import opened Newc
  import opened Cpio
  import Walker
  import opened HostFs
  import opened Gather
  import opened ElfWorklist
  import opened TreeWorklist
  import opened TreeListing
  import opened KmodIndex
  import opened KmodGather
  import opened Manifest
  import opened CutArchive

  /** The call carries the node's metadata and, for a regular file, its content. */
  predicate Reflects(node: Node, call: Call) {
    && ShowsStat(call.md, node.stat)
    && (TypeOf(node.stat.mode) == IFREG && call.md.len > 0 ==> call.FileCall? && call.data == node.content)
    && (IsLink(node) <==> call.LinkCall?)
  }

  /** An entry is archived under its destination. It shows its source: the ELF
      gatherer makes symlinks point at the canonical target, everything else copies
      their text, and opening a file follows them. Entries without a source have no
      contents. */
  predicate FromHost(fs: Fs, e: LogEntry) {
    && e.call.path == Render(e.dst)
    && Accepted(e.call)
    && match e.origin
       case Mocked | NumberedDir => !e.call.FileCall?
       case Scanned(src, _) =>
         && src in fs.nodes && Reflects(fs.nodes[src], e.call)
         && (e.call.LinkCall? ==> fs.nodes[src].canon.Some? && e.call.target == Render(fs.nodes[src].canon.value))
       case Copied(src) => CopyOf(fs, src, e.call)
       case Numbered(src, _) => CopyOf(fs, src, e.call)
  }

  /** The node of `src`, or of the canonical target of a symlink that was opened. */
  predicate CopyOf(fs: Fs, src: Path, call: Call) {
    && src in fs.nodes
    && var node := fs.nodes[src];
       if call.LinkCall? then Reflects(node, call) && call.target == node.target
       else if IsLink(node) then node.canon.Some? && node.canon.value in fs.nodes && Reflects(fs.nodes[node.canon.value], call)
       else Reflects(node, call)
  }

  /** Everything archived between two states comes from the host. */
  ghost predicate Faithful(fs: Fs, a: State, b: State) {
    && a.log <= b.log
    && forall i :: |a.log| <= i < |b.log| ==> FromHost(fs, b.log[i])
  }

  lemma FaithfulSame(fs: Fs, a: State, b: State)
    requires a.log == b.log
    ensures Faithful(fs, a, b)
  {
  }

  lemma {:induction false} FaithfulTrans(fs: Fs, a: State, b: State, c: State)
    requires Faithful(fs, a, b) && Faithful(fs, b, c)
    ensures Faithful(fs, a, c)
  {
    hide FromHost;
    forall i | |a.log| <= i < |c.log| ensures FromHost(fs, c.log[i]) {
      if i < |b.log| { assert c.log[i] == b.log[i]; }
    }
  }

  lemma {:induction false} PutFaithful(fs: Fs, st: State, dst: Path, call: Call, origin: Origin)
    requires Accepted(call) ==> FromHost(fs, LogEntry(dst, call, origin))
    ensures Faithful(fs, st, Put(st, dst, call, origin).st)
  {
    hide FromHost, Accepted;
  }

  lemma {:induction false} MockedPut(fs: Fs, st: State, dst: Path, call: Call, origin: Origin)
    requires call.path == Render(dst) && !call.FileCall? && (origin.Mocked? || origin.NumberedDir?)
    ensures Faithful(fs, st, Put(st, dst, call, origin).st)
  {
    hide Accepted, Render, Faithful;
    PutFaithful(fs, st, dst, call, origin);
  }

  lemma {:induction false} DirsFromFaithful(fs: Fs, st: State, here: seq<Bytes>, comps: seq<Bytes>, md: Md)
    ensures Faithful(fs, st, DirsFrom(st, here, comps, md).st)
    decreases |comps|
  {
    hide Faithful, Put, Render;
    FaithfulSame(fs, st, st);
    if comps != [] && comps[0] == DOT_DOT && here != [] {
      DirsFromFaithful(fs, st, here[..|here| - 1], comps[1..], md);
    } else if comps != [] && comps[0] != DOT_DOT {
      var next := here + [comps[0]];
      var p := Path(true, next);
      if p in st.seen {
        DirsFromFaithful(fs, st, next, comps[1..], md);
      } else {
        var call := PathCall(Render(p), md);
        var put := Put(See(st, p), p, call, Mocked);
        FaithfulSame(fs, st, See(st, p));
        MockedPut(fs, See(st, p), p, call, Mocked);
        FaithfulTrans(fs, st, See(st, p), put.st);
        DirsFromFaithful(fs, put.st, next, comps[1..], md);
        FaithfulTrans(fs, st, put.st, DirsFrom(put.st, next, comps[1..], md).st);
      }
    }
  }

  lemma {:induction false} DirsFaithful(fs: Fs, st: State, path: Option<Path>, md: Md)
    ensures Faithful(fs, st, Dirs(st, path, md).st)
  {
    hide Faithful, DirsFrom;
    FaithfulSame(fs, st, st);
    if path.Some? { DirsFromFaithful(fs, st, [], path.value.comps, ParentMd(md)); }
  }

  lemma {:induction false} PutUnderFaithful(fs: Fs, st: State, dst: Path, md: Md, call: Call, origin: Origin)
    requires Accepted(call) ==> FromHost(fs, LogEntry(dst, call, origin))
    ensures Faithful(fs, st, PutUnder(st, dst, md, call, origin).st)
  {
    hide Faithful, FromHost, Accepted, Dirs, Put;
    var dirs := Dirs(st, Parent(dst), md);
    DirsFaithful(fs, st, Parent(dst), md);
    PutFaithful(fs, dirs.st, dst, call, origin);
    var put := Put(dirs.st, dst, call, origin);
    FaithfulTrans(fs, st, dirs.st, put.st);
    FaithfulSame(fs, put.st, See(put.st, dst));
    FaithfulTrans(fs, st, put.st, See(put.st, dst));
  }

  // ---- the gatherers ------------------------------------------------------

  lemma MdKeepsMode(node: Node, md: Md)
    requires MdFrom(CUT_PROPS, node.stat) == Some(md)
    ensures ShowsStat(md, node.stat)
  {
  }

  lemma {:induction false} PlanFromHost(fs: Fs, st: State, ent: Ent, path: Path, md: Md)
    requires path in fs.nodes && MdFrom(CUT_PROPS, fs.nodes[path].stat) == Some(md)
    ensures var plan := PlanElf(st, ent, path, fs.nodes[path], md);
            plan.Plan? && Accepted(plan.call) ==>
              FromHost(fs, LogEntry(DstOf(ent, path), plan.call, Scanned(path, IsLib(ent))))
  {
    hide MdFrom, Accepted, Render, ElfDeps, Children, Sort, Executable;
    MdKeepsMode(fs.nodes[path], md);
  }

  lemma {:induction false} ElfStepFaithful(fs: Fs, st: State, ent: Ent)
    ensures Faithful(fs, st, ElfStep(fs, st, ent).st)
  {
    hide Faithful, Locate, MdFrom, ElfArchive;
    FaithfulSame(fs, st, st);
    var path := Locate(fs, ent);
    if path.Some? && MdFrom(CUT_PROPS, fs.nodes[path.value].stat).Some? {
      ElfArchiveFaithful(fs, st, ent, path.value, MdFrom(CUT_PROPS, fs.nodes[path.value].stat).value);
    }
  }

  lemma {:induction false} ElfArchiveFaithful(fs: Fs, st: State, ent: Ent, path: Path, md: Md)
    requires path in fs.nodes && MdFrom(CUT_PROPS, fs.nodes[path].stat) == Some(md)
    ensures Faithful(fs, st, ElfArchive(st, ent, path, fs.nodes[path], md).st)
  {
    hide Faithful, FromHost, Dirs, PlanElf, Put, MdFrom, Accepted;
    var dst := DstOf(ent, path);
    var dirs := Dirs(st, Parent(dst), md);
    DirsFaithful(fs, st, Parent(dst), md);
    var plan := PlanElf(dirs.st, ent, path, fs.nodes[path], md);
    if dirs.out.Ok? && plan.Plan? {
      PlanFromHost(fs, dirs.st, ent, path, md);
      var mid := dirs.st.(libs := plan.libs);
      FaithfulSame(fs, dirs.st, mid);
      FaithfulTrans(fs, st, dirs.st, mid);
      var put := Put(mid, dst, plan.call, Scanned(path, IsLib(ent)));
      PutFaithful(fs, mid, dst, plan.call, Scanned(path, IsLib(ent)));
      FaithfulTrans(fs, st, mid, put.st);
      FaithfulSame(fs, put.st, See(put.st, dst));
      FaithfulTrans(fs, st, put.st, See(put.st, dst));
    }
  }

  lemma {:induction false} ElfsFaithful(fs: Fs, stack: seq<Ent>, st: State)
    ensures Faithful(fs, st, Elfs(fs, stack, st).st)
    decreases Renamed(stack), Unseen(fs, st), |stack|
  {
    hide Faithful, ElfStep, Unseen;
    FaithfulSame(fs, st, st);
    if stack != [] {
      var ent, rest := stack[|stack| - 1], stack[..|stack| - 1];
      var r := ElfStep(fs, st, ent);
      ElfStepFaithful(fs, st, ent);
      if r.out.Ok? {
        StepMeasure(fs, st, ent);
        UnseenShrinks(fs, st, r.st);
        RenamedConcat(rest, r.push);
        ElfsFaithful(fs, rest + r.push, r.st);
        FaithfulTrans(fs, st, r.st, Elfs(fs, rest + r.push, r.st).st);
      }
    }
  }

  lemma {:induction false} DataFromHost(fs: Fs, src: Path, dst: Path, md: Md)
    requires src in fs.nodes && MdFrom(CUT_PROPS, fs.nodes[src].stat) == Some(md)
    ensures var call := DataCall(dst, fs.nodes[src], md);
            Accepted(call) ==> FromHost(fs, LogEntry(dst, call, Copied(src)))
  {
    hide MdFrom, Accepted, Render;
    MdKeepsMode(fs.nodes[src], md);
  }

  lemma {:induction false} DataRoundFaithful(fs: Fs, st: State, item: Item)
    ensures Faithful(fs, st, DataRound(fs, st, item).st)
  {
    hide Faithful, FromHost, MdFrom, Dirs, DataCall, Put, Accepted, Sort, ChildItems;
    FaithfulSame(fs, st, st);
    if item.src in fs.nodes && item.dst !in st.seen && MdFrom(CUT_PROPS, fs.nodes[item.src].stat).Some? {
      var node := fs.nodes[item.src];
      var md := MdFrom(CUT_PROPS, node.stat).value;
      var seen := See(st, item.dst);
      var dirs := if item.ignoreParent then Result(seen, Ok) else Dirs(seen, Parent(item.dst), md);
      FaithfulSame(fs, st, seen);
      FaithfulSame(fs, seen, seen);
      DirsFaithful(fs, seen, Parent(item.dst), md);
      FaithfulTrans(fs, st, seen, dirs.st);
      DataFromHost(fs, item.src, item.dst, md);
      PutFaithful(fs, dirs.st, item.dst, DataCall(item.dst, node, md), Copied(item.src));
      FaithfulTrans(fs, st, dirs.st, Put(dirs.st, item.dst, DataCall(item.dst, node, md), Copied(item.src)).st);
    }
  }

  lemma {:induction false} DataFaithful(fs: Fs, src0: Path, dst0: Path, items: seq<Item>, st: State)
    requires AllRelated(items, src0, dst0)
    ensures Faithful(fs, st, DataRun(fs, src0, dst0, items, st).st)
    decreases Untouched(fs, src0, dst0, st), |items|
  {
    hide Faithful, DataRound, Untouched, Related, DataRun, AllRelated;
    FaithfulSame(fs, st, st);
    if items == [] {
      DataEmpty(fs, src0, dst0, st);
    } else {
      var item, rest := items[|items| - 1], items[..|items| - 1];
      assert items == rest + [item];
      RelatedConcat(items, items, src0, dst0);
      DataStepIs(fs, src0, dst0, rest, item, st);
      DataRoundFaithful(fs, st, item);
      var r := DataRound(fs, st, item);
      if r.out.Ok? {
        DataFaithful(fs, src0, dst0, rest + r.push, r.st);
        FaithfulTrans(fs, st, r.st, DataRun(fs, src0, dst0, rest + r.push, r.st).st);
      }
    }
  }

  // ---- kernel modules -----------------------------------------------------

  /** Files are opened, so a copied file is what the path leads to. */
  lemma {:induction false} FileFromHost(fs: Fs, src: Path, dst: Path, node: Node, md: Md)
    requires OpenNode(fs, src) == Some(node) && MdFrom(CUT_PROPS, node.stat) == Some(md)
    ensures var call := FileCall(Render(dst), md, node.content);
            Accepted(call) ==> CopyOf(fs, src, call)
  {
    hide MdFrom, Complete, Render, Name;
    MdKeepsMode(node, md);
  }

  lemma {:induction false} KmodOneFaithful(fs: Fs, k: KmodCtx, st: State, rel: Bytes)
    ensures Faithful(fs, st, KmodOne(fs, k, st, rel).st)
  {
    hide Faithful, FromHost, KmodDst, Join, Dirs, Put, MdFrom, Accepted, Dangling;
    FaithfulSame(fs, st, st);
    var dst, src := KmodDst(k, rel), Join(k.root, rel);
    var seen := See(st, dst);
    FaithfulSame(fs, st, seen);
    if dst !in st.seen && src in fs.nodes && MdFrom(CUT_PROPS, fs.nodes[src].stat).Some? {
      var node := fs.nodes[src];
      var md := MdFrom(CUT_PROPS, node.stat).value;
      var dirs := Dirs(seen, Parent(dst), md);
      DirsFaithful(fs, seen, Parent(dst), md);
      FaithfulTrans(fs, st, seen, dirs.st);
      var call := FileCall(Render(dst), md, node.content);
      KmodFromHost(fs, src, dst, md);
      PutFaithful(fs, dirs.st, dst, call, Copied(src));
      FaithfulTrans(fs, st, dirs.st, Put(dirs.st, dst, call, Copied(src)).st);
    }
  }

  /** A module file that is a symlink is refused: its own metadata is used. */
  lemma {:induction false} KmodFromHost(fs: Fs, src: Path, dst: Path, md: Md)
    requires src in fs.nodes && MdFrom(CUT_PROPS, fs.nodes[src].stat) == Some(md)
    ensures var call := FileCall(Render(dst), md, fs.nodes[src].content);
            Accepted(call) ==> FromHost(fs, LogEntry(dst, call, Copied(src)))
  {
    hide MdFrom, Complete, Render, Name;
    MdKeepsMode(fs.nodes[src], md);
  }

  lemma {:induction false} KmodHardFaithful(fs: Fs, k: KmodCtx, st: State, deps: seq<Bytes>)
    ensures Faithful(fs, st, KmodHard(fs, k, st, deps).st)
    decreases |deps|
  {
    hide Faithful, KmodOne;
    FaithfulSame(fs, st, st);
    if deps != [] {
      var r := KmodOne(fs, k, st, deps[0]);
      KmodOneFaithful(fs, k, st, deps[0]);
      KmodHardFaithful(fs, k, r.st, deps[1..]);
      FaithfulTrans(fs, st, r.st, KmodHard(fs, k, r.st, deps[1..]).st);
    }
  }

  lemma {:induction false} KmodTryFaithful(fs: Fs, k: KmodCtx, st: State, rels: seq<Bytes>)
    ensures Faithful(fs, st, KmodTry(fs, k, st, rels).st)
    decreases |rels|
  {
    hide Faithful, KmodOne;
    FaithfulSame(fs, st, st);
    if rels != [] {
      var r := KmodOne(fs, k, st, rels[0]);
      KmodOneFaithful(fs, k, st, rels[0]);
      KmodTryFaithful(fs, k, r.st, rels[1..]);
      FaithfulTrans(fs, st, r.st, KmodTry(fs, k, r.st, rels[1..]).st);
    }
  }

  lemma {:induction false} KmodRequestFaithful(fs: Fs, k: KmodCtx, st: State, name: Bytes)
    ensures Faithful(fs, st, KmodRequest(fs, k, st, name).st)
  {
    hide Faithful, KmodOne, KmodHard, KmodTry, FindModule, Loadable, KmodDst;
    FaithfulSame(fs, st, st);
    var found := FindModule(k.index, name);
    if found.Some? {
      var m := found.value;
      var own := KmodOne(fs, k, st, m.relPath);
      KmodOneFaithful(fs, k, st, m.relPath);
      var hard := KmodHard(fs, k, own.st, m.hard);
      KmodHardFaithful(fs, k, own.st, m.hard);
      FaithfulTrans(fs, st, own.st, hard.st);
      var soft := KmodTry(fs, k, hard.st, Loadable(k.index, SoftNames(m)));
      KmodTryFaithful(fs, k, hard.st, Loadable(k.index, SoftNames(m)));
      FaithfulTrans(fs, st, hard.st, soft.st);
    }
  }

  // ---- manifest lines -----------------------------------------------------

  lemma {:induction false} KmodLineFaithful(env: Env, run: Run, args: seq<string>, try_: bool)
    ensures Faithful(env.fs, run.st, KmodLine(env, run, args, try_).run.st)
  {
    hide Faithful, KmodTry, KmodRequest, ModuleDbFiles, Encode;
    FaithfulSame(env.fs, run.st, run.st);
    if args != [] && env.kmods.Some? {
      var k := env.kmods.value;
      KmodTryFaithful(env.fs, k, run.st, ModuleDbFiles());
      var init := if run.kmodsReady then Result(run.st, Ok) else KmodInit(env.fs, k, run.st);
      KmodRequestFaithful(env.fs, k, init.st, Encode(args[0]));
      FaithfulTrans(env.fs, run.st, init.st, KmodRequest(env.fs, k, init.st, Encode(args[0])).st);
    }
  }

  lemma {:induction false} MockedUnder(fs: Fs, st: State, dst: Path, md: Md, call: Call)
    requires call.path == Render(dst) && !call.FileCall?
    ensures Faithful(fs, st, PutUnder(st, dst, md, call, Mocked).st)
  {
    hide Faithful, Accepted, Render, PutUnder;
    PutUnderFaithful(fs, st, dst, md, call, Mocked);
  }

  lemma {:induction false} DirLineFaithful(env: Env, st: State, args: seq<string>)
    ensures Faithful(env.fs, st, DirLine(env, st, args).st)
  {
    hide Faithful, AbsName, PutUnder, Render;
    FaithfulSame(env.fs, st, st);
    var p := AbsName(env, Arg(args, 0));
    if p.Some? { MockedUnder(env.fs, st, p.value, DIR_MD, PathCall(Render(p.value), DIR_MD)); }
  }

  lemma {:induction false} SlinkLineFaithful(env: Env, st: State, args: seq<string>)
    ensures Faithful(env.fs, st, SlinkLine(env, st, args).st)
  {
    hide Faithful, AbsName, NameSub, PutUnder, Render;
    FaithfulSame(env.fs, st, st);
    var p, target := AbsName(env, Arg(args, 0)), NameSub(env, Arg(args, 1));
    if p.Some? && target.Some? {
      MockedUnder(env.fs, st, p.value, SLINK_MD, LinkCall(Render(p.value), SLINK_MD, target.value));
    }
  }

  lemma {:induction false} FileLineFaithful(env: Env, st: State, args: seq<string>)
    ensures Faithful(env.fs, st, FileLine(env, st, args).st)
  {
    hide Faithful, AbsName, NameSub, PutUnder, Render, FileFrom;
    FaithfulSame(env.fs, st, st);
    var p, src := AbsName(env, Arg(args, 0)), NameSub(env, Arg(args, 1));
    if p.Some? {
      MockedUnder(env.fs, st, p.value, DEFAULT_MD, PathCall(Render(p.value), DEFAULT_MD));
      if src.Some? { FileFromFaithful(env.fs, st, p.value, ParsePath(src.value)); }
    }
  }

  lemma {:induction false} FileFromFaithful(fs: Fs, st: State, p: Path, src: Path)
    ensures Faithful(fs, st, FileFrom(fs, st, p, src).st)
  {
    hide Faithful, CopyOf, PutUnder, Render, OpenNode, MdFrom, Accepted;
    FaithfulSame(fs, st, st);
    var node := OpenNode(fs, src);
    if node.Some? && MdFrom(CUT_PROPS, node.value.stat).Some? {
      var md := MdFrom(CUT_PROPS, node.value.stat).value;
      FileFromHost(fs, src, p, node.value, md);
      PutUnderFaithful(fs, st, p, md, FileCall(Render(p), md, node.value.content), Copied(src));
    }
  }

  lemma {:induction false} TreeLineFaithful(env: Env, st: State, args: seq<string>)
    ensures Faithful(env.fs, st, TreeLine(env, st, args).st)
  {
    hide Faithful, AbsName, NameSub, DataRun, AllRelated, ParsePath;
    FaithfulSame(env.fs, st, st);
    var dst, src := AbsName(env, Arg(args, 0)), NameSub(env, Arg(args, 1));
    if dst.Some? && src.Some? {
      RootRelated(ParsePath(src.value), dst.value);
      DataFaithful(env.fs, ParsePath(src.value), dst.value, [Item(ParsePath(src.value), dst.value, false)], st);
    }
  }

  lemma {:induction false} BinLineFaithful(env: Env, st: State, args: seq<string>, try_: bool)
    ensures Faithful(env.fs, st, BinLine(env, st, args, try_).st)
  {
    hide Faithful, NameSub, Elfs;
    FaithfulSame(env.fs, st, st);
    var src := NameSub(env, Arg(args, 0));
    if src.Some? { ElfsFaithful(env.fs, [if try_ then NamedTry(src.value) else Named(src.value)], st); }
  }

  lemma {:induction false} AutorunOneFaithful(env: Env, run: Run, loc: string)
    ensures Faithful(env.fs, run.st, AutorunOne(env, run, loc).run.st)
  {
    hide Faithful, CopyOf, AbsName, Put, OpenNode, MdFrom, Accepted, Render, AutorunDir, AutorunDst;
    FaithfulSame(env.fs, run.st, run.st);
    var src := AbsName(env, Some(loc));
    if src.Some? && src.value.comps != [] {
      var dst := AutorunDst(run.autorun, src.value.comps[|src.value.comps| - 1]);
      MockedPut(env.fs, run.st, AutorunDir(), PathCall(Render(AutorunDir()), DIR_MD), NumberedDir);
      var dir := Put(run.st, AutorunDir(), PathCall(Render(AutorunDir()), DIR_MD), NumberedDir);
      FaithfulSame(env.fs, dir.st, See(dir.st, AutorunDir()));
      FaithfulTrans(env.fs, run.st, dir.st, See(dir.st, AutorunDir()));
      var st := if run.autorun == 0 then See(dir.st, AutorunDir()) else run.st;
      var node := OpenNode(env.fs, src.value);
      if node.Some? && MdFrom(CUT_PROPS, node.value.stat).Some? {
        var md := MdFrom(CUT_PROPS, node.value.stat).value;
        var call := FileCall(Render(dst), md, node.value.content);
        FileFromHost(env.fs, src.value, dst, node.value, md);
        PutFaithful(env.fs, st, dst, call, Numbered(src.value, run.autorun));
        FaithfulTrans(env.fs, run.st, st, Put(st, dst, call, Numbered(src.value, run.autorun)).st);
      }
    }
  }

  lemma {:induction false} AutorunFaithful(env: Env, run: Run, locs: seq<string>)
    ensures Faithful(env.fs, run.st, AutorunAll(env, run, locs).run.st)
    decreases |locs|
  {
    hide Faithful, AutorunOne;
    FaithfulSame(env.fs, run.st, run.st);
    if locs != [] {
      var r := AutorunOne(env, run, locs[0]);
      AutorunOneFaithful(env, run, locs[0]);
      AutorunFaithful(env, r.run, locs[1..]);
      FaithfulTrans(env.fs, run.st, r.run.st, AutorunAll(env, r.run, locs[1..]).run.st);
    }
  }

  lemma {:induction false} DirectiveFaithful(env: Env, run: Run, etype: string, args: seq<string>)
    ensures Faithful(env.fs, run.st, Directive(env, run, etype, args).run.st)
  {
    hide Faithful, DirLine, SlinkLine, FileLine, BinLine, KmodLine, TreeLine, AbsName, AutorunAll;
    FaithfulSame(env.fs, run.st, run.st);
    DirLineFaithful(env, run.st, args);
    SlinkLineFaithful(env, run.st, args);
    FileLineFaithful(env, run.st, args);
    BinLineFaithful(env, run.st, args, false);
    BinLineFaithful(env, run.st, args, true);
    KmodLineFaithful(env, run, args, false);
    KmodLineFaithful(env, run, args, true);
    TreeLineFaithful(env, run.st, args);
    FaithfulSame(env.fs, run.st, FilterLine(env, run.st, args).st);
    AutorunFaithful(env, run, args);
  }

  /** Whole runs, `autorun` included: whatever a manifest archives shows its source. */
  lemma {:induction false} RunFaithful(env: Env, run: Run, lines: seq<Line>)
    ensures Faithful(env.fs, run.st, RunLines(env, run, lines).run.st)
    decreases |lines|
  {
    hide Faithful, Directive;
    FaithfulSame(env.fs, run.st, run.st);
    if lines != [] {
      var line := lines[0];
      if !IsBlank(line) { DirectiveFaithful(env, run, line[0], line[1..]); }
      var r := LineRun(env, run, line);
      RunFaithful(env, r.run, lines[1..]);
      FaithfulTrans(env.fs, run.st, r.run.st, RunLines(env, r.run, lines[1..]).run.st);
    }
  }

  // ---- down to the bytes --------------------------------------------------

  /** The data of every entry stands at its data offset. */
  lemma {:induction false} DataAt(props: Props, calls: seq<Call>, i: nat)
    requires AllAccepted(calls) && i < |calls|
    ensures AllAccepted(calls[..i])
    ensures var a := Archive(props, 0, props.initialIno, calls);
            var d := DataOff(props, |Archive(props, 0, props.initialIno, calls[..i])|, calls[i]);
            d + |Data(calls[i])| <= |a| && a[d..d + |Data(calls[i])|] == Data(calls[i])
  {
    hide Archive, AllAccepted, Valid, Data, DataOff, EntryHead, DataPad, Zeros;
    Walker.EntryAt(props, calls, i);
    var a := Archive(props, 0, props.initialIno, calls);
    var b := Archive(props, 0, props.initialIno, calls[..i]);
    var ino := (props.initialIno + i) % 0x1_0000_0000;
    var e := Entry(props, |b|, ino, calls[i]);
    SliceOf(a, b, EntryHead(props, |b|, ino, calls[i]), Data(calls[i]), Zeros(DataPad(props, |b|, calls[i])));
  }

  lemma SliceOf(a: Bytes, b: Bytes, h: Bytes, d: Bytes, z: Bytes)
    requires b + (h + d + z) <= a
    ensures |b| + |h| + |d| <= |a| && a[|b| + |h|..|b| + |h| + |d|] == d
  {
    var p := b + (h + d + z);
    assert a[..|p|] == p;
    assert p[|b| + |h|..|b| + |h| + |d|] == d;
  }

  /** The initramfs of any manifest run carries the host's files: at the data offset
      of every entry stand the contents of the file, or the target of the symlink,
      that the entry was archived from. */
  lemma {:induction false} InitramfsCarriesHost(env: Env, lines: seq<Line>, i: nat)
    requires i < |RunLines(env, FRESH_RUN, lines).run.st.log|
    ensures var log := RunLines(env, FRESH_RUN, lines).run.st.log;
            var calls := Calls(log);
            && FromHost(env.fs, log[i])
            && AllAccepted(calls) && AllAccepted(calls[..i])
            && var a := Archive(CUT_PROPS, 0, CUT_PROPS.initialIno, calls);
               var d := DataOff(CUT_PROPS, |Archive(CUT_PROPS, 0, CUT_PROPS.initialIno, calls[..i])|, calls[i]);
               d + |Data(calls[i])| <= |a| && a[d..d + |Data(calls[i])|] == Data(calls[i])
  {
    hide RunLines, FromHost, Archive, Data, DataOff, AllAccepted, Accepted;
    var log := RunLines(env, FRESH_RUN, lines).run.st.log;
    RunFaithful(env, FRESH_RUN, lines);
    AllFromHost(env.fs, log);
    DataAt(CUT_PROPS, Calls(log), i);
  }

  lemma AllFromHost(fs: Fs, log: seq<LogEntry>)
    requires forall i :: 0 <= i < |log| ==> FromHost(fs, log[i])
    ensures AllAccepted(Calls(log))
  {
    hide Reflects, Accepted, Render;
    forall i | 0 <= i < |log| ensures Accepted(Calls(log)[i]) { assert FromHost(fs, log[i]); }
  }
}
