/** rapido-cut as it runs (src/bin/rapido-cut.rs): the sets and the archive are
    changed in place, the worklists and the manifest stack are popped and pushed.
    Every method is proved to do what the functions of the model say. */
module RapidoCut {
  import opened Strings
  import opened Newc
  import opened Cpio
  import opened HostFs
  import opened Gather
  import opened ElfWorklist
  import opened TreeWorklist
  import opened TreeListing
  import opened KmodIndex
  import opened KmodGather
  import opened Manifest
  import opened Includes
  import opened IncludeGraph
  import Template

  class Cut {
    const env: Env
    var pathsSeen: set<Path>
    var libsSeen: set<Bytes>
    var log: seq<LogEntry>
    var kmodsReady: bool
    var autorunIdx: nat

    ghost function St(): State
      reads this
    {
      State(pathsSeen, libsSeen, log)
    }

    ghost function Now(): Run
      reads this
    {
      Run(St(), kmodsReady, autorunIdx)
    }

    constructor (env: Env)
      ensures this.env == env && Now() == FRESH_RUN
    {
      this.env := env;
      pathsSeen, libsSeen, log, kmodsReady, autorunIdx := {}, {}, [], false, 0;
    }

    method Archive(dst: Path, call: Call, origin: Origin) returns (out: Status)
      modifies this`log
      ensures Result(St(), out) == Put(old(St()), dst, call, origin)
    {
      hide Valid, Complete;
      if !(Valid(call) && Complete(call)) {
        return Err(Other);
      }
      log := log + [LogEntry(dst, call, origin)];
      return Ok;
    }

    /** `gather_archive_dirs`. */
    method GatherDirs(path: Option<Path>, childMd: Md) returns (out: Status)
      modifies this`pathsSeen, this`log
      ensures Result(St(), out) == Dirs(old(St()), path, childMd)
    {
      hide Put, Render, ParentMd;
      if path.None? {
        return Ok;
      }
      var p := path.value;
      if !p.absolute {
        return Err(Other);
      }
      if p in pathsSeen {
        return Ok;
      }
      var parentMd := ParentMd(childMd);
      var here: seq<Bytes> := [];
      var i := 0;
      assert p.comps[0..] == p.comps;
      while i < |p.comps|
        invariant i <= |p.comps|
        invariant DirsFrom(St(), here, p.comps[i..], parentMd) == Dirs(old(St()), path, childMd)
      {
        var comp := p.comps[i];
        assert p.comps[i..][1..] == p.comps[i + 1..];
        i := i + 1;
        if comp == DOT_DOT {
          if here == [] {
            return Err(Other);
          }
          here := here[..|here| - 1];
          continue;
        }
        here := here + [comp];
        var at := Path(true, here);
        if at in pathsSeen {
          continue;
        }
        pathsSeen := pathsSeen + {at};
        out := Archive(at, PathCall(Render(at), parentMd), Mocked);
        if out.Err? {
          return;
        }
      }
      return Ok;
    }

    /** Parents, the entry itself, then it is seen. */
    method ArchiveUnder(dst: Path, md: Md, call: Call, origin: Origin) returns (out: Status)
      modifies this`pathsSeen, this`log
      ensures Result(St(), out) == PutUnder(old(St()), dst, md, call, origin)
    {
      hide Dirs, Put;
      out := GatherDirs(Parent(dst), md);
      if out.Err? {
        return;
      }
      out := Archive(dst, call, origin);
      if out.Err? {
        return;
      }
      pathsSeen := pathsSeen + {dst};
    }

    /** The needed names of `elf_deps`; they are entered one by one, also when a
        later one cannot be read. */
    method ScanElf(elf: Elf) returns (ents: seq<Ent>)
      modifies this`libsSeen
      ensures var d := ElfDeps(old(libsSeen), elf); ents == d.ents && libsSeen == d.libs
    {
      ents := [];
      if elf.NotElf? {
        return;
      }
      var i := 0;
      assert elf.needed[0..] == elf.needed;
      ghost var all := NeededDeps(libsSeen, elf.needed, elf.runpaths);
      while i < |elf.needed|
        invariant i <= |elf.needed|
        invariant var d := NeededDeps(libsSeen, elf.needed[i..], elf.runpaths);
                  all == Deps(d.libs, ents + d.ents, d.ok)
      {
        var name := elf.needed[i];
        assert elf.needed[i..][1..] == elf.needed[i + 1..];
        i := i + 1;
        if name.None? {
          return [];
        }
        if name.value !in libsSeen {
          libsSeen := libsSeen + {name.value};
          ents := ents + [LibEnt(name.value, elf.runpaths)];
        }
      }
    }

    /** One entry of the ELF worklist. */
    method ElfRound(ent: Ent) returns (push: seq<Ent>, out: Status)
      modifies this`pathsSeen, this`libsSeen, this`log
      ensures Step(St(), push, out) == ElfStep(env.fs, old(St()), ent)
    {
      hide Locate, Dirs, Put, Render, MdFrom, ElfDeps, Sort, Children, Executable;
      push := [];
      var got := Locate(env.fs, ent);
      if got.None? {
        return [], if ent.NamedTry? then Ok else Err(NotFound);
      }
      var src := got.value;
      var dst := if ent.NamedDst? then ent.dst else src;
      var libEnt := ent.LibRunPath? || ent.Lib?;
      if dst in pathsSeen {
        return [], Ok;
      }
      var node := env.fs.nodes[src];
      var amd := MdFrom(CUT_PROPS, node.stat);
      if amd.None? {
        return [], Err(Other);
      }
      var md := amd.value;
      out := GatherDirs(Parent(dst), md);
      if out.Err? {
        return;
      }
      var kind := TypeOf(md.mode);
      if kind == IFLNK {
        if ent.NamedDst? {
          return [], Err(Other);
        }
        if node.canon.None? {
          return [], Ok;
        }
        var target := Render(node.canon.value);
        out := Archive(dst, LinkCall(Render(dst), md, target), Scanned(src, libEnt));
        if out.Err? {
          return;
        }
        push := [if libEnt then Lib(target) else Named(target)];
      } else if kind == IFREG && md.len > 0 {
        var deps := [];
        if Executable(md) || libEnt {
          deps := ScanElf(node.elf);
        }
        out := Archive(dst, FileCall(Render(dst), md, node.content), Scanned(src, libEnt));
        if out.Err? {
          return;
        }
        push := deps;
      } else if kind == IFDIR {
        out := Archive(dst, PathCall(Render(dst), md), Scanned(src, libEnt));
        if out.Err? {
          return;
        }
        push := Children(src, Sort(node.children));
      } else {
        out := Archive(dst, PathCall(Render(dst), md), Scanned(src, libEnt));
        if out.Err? {
          return;
        }
      }
      pathsSeen := pathsSeen + {dst};
    }

    /** `gather_archive_elfs`. */
    method GatherElfs(elfs0: seq<Ent>) returns (out: Status)
      modifies this`pathsSeen, this`libsSeen, this`log
      ensures Result(St(), out) == Elfs(env.fs, elfs0, old(St()))
    {
      hide ElfStep, Unseen;
      var elfs := elfs0;
      while elfs != []
        invariant Elfs(env.fs, elfs, St()) == Elfs(env.fs, elfs0, old(St()))
        decreases Renamed(elfs), Unseen(env.fs, St()), |elfs|
      {
        ghost var st0 := St();
        var ent := elfs[|elfs| - 1];
        elfs := elfs[..|elfs| - 1];
        StepMeasure(env.fs, st0, ent);
        var push;
        push, out := ElfRound(ent);
        if out.Err? {
          return;
        }
        UnseenShrinks(env.fs, st0, St());
        RenamedConcat(elfs, push);
        elfs := elfs + push;
      }
      return Ok;
    }

    /** One item of the tree worklist. */
    method DataItem(item: Item) returns (push: seq<Item>, out: Status)
      modifies this`pathsSeen, this`log
      ensures DataStep(St(), push, out) == DataRound(env.fs, old(St()), item)
    {
      hide Dirs, Put, Render, MdFrom, Sort, ChildItems;
      push := [];
      if item.src !in env.fs.nodes {
        return [], Err(NotFound);
      }
      var node := env.fs.nodes[item.src];
      var amd := MdFrom(CUT_PROPS, node.stat);
      if amd.None? {
        return [], Err(Other);
      }
      var md := amd.value;
      if item.dst in pathsSeen {
        return [], Ok;
      }
      pathsSeen := pathsSeen + {item.dst};
      if !item.ignoreParent {
        out := GatherDirs(Parent(item.dst), md);
        if out.Err? {
          return;
        }
      }
      var kind := TypeOf(md.mode);
      if kind == IFDIR {
        out := Archive(item.dst, PathCall(Render(item.dst), md), Copied(item.src));
        if out.Ok? {
          push := ChildItems(item.src, item.dst, Sort(node.children));
        }
      } else if kind == IFREG && md.len > 0 {
        out := Archive(item.dst, FileCall(Render(item.dst), md, node.content), Copied(item.src));
      } else if kind == IFLNK {
        out := Archive(item.dst, LinkCall(Render(item.dst), md, node.target), Copied(item.src));
      } else {
        out := Archive(item.dst, PathCall(Render(item.dst), md), Copied(item.src));
      }
    }

    /** `gather_archive_data` for one root. */
    method GatherData(src0: Path, dst0: Path) returns (out: Status)
      modifies this`pathsSeen, this`log
      ensures Result(St(), out) == TreeRun(env.fs, src0, dst0, old(St()))
    {
      hide DataRound, Untouched, Related, DataRun, AllRelated;
      RootRelated(src0, dst0);
      var items := [Item(src0, dst0, false)];
      while items != []
        invariant AllRelated(items, src0, dst0)
        invariant DataRun(env.fs, src0, dst0, items, St()) == TreeRun(env.fs, src0, dst0, old(St()))
        decreases Untouched(env.fs, src0, dst0, St()), |items|
      {
        ghost var st0 := St();
        var item := items[|items| - 1];
        RelatedConcat(items, items, src0, dst0);
        assert items == items[..|items| - 1] + [item];
        items := items[..|items| - 1];
        DataStepIs(env.fs, src0, dst0, items, item, st0);
        var push;
        push, out := DataItem(item);
        if out.Err? {
          return;
        }
        items := items + push;
      }
      DataEmpty(env.fs, src0, dst0, St());
      return Ok;
    }

    /** `archive_kmod_path`. */
    method ArchiveKmodPath(src: Path, dst: Path) returns (out: Status)
      modifies this`pathsSeen, this`log
      ensures Result(St(), out) == KmodPath(env.fs, old(St()), src, dst)
    {
      hide Dirs, Put, Render, MdFrom, Dangling;
      if src !in env.fs.nodes {
        return Err(NotFound);
      }
      var node := env.fs.nodes[src];
      var amd := MdFrom(CUT_PROPS, node.stat);
      if amd.None? {
        return Err(Other);
      }
      out := GatherDirs(Parent(dst), amd.value);
      if out.Err? {
        return;
      }
      if Dangling(node) {
        return Err(NotFound);
      }
      out := Archive(dst, FileCall(Render(dst), amd.value, node.content), Copied(src));
    }

    method KmodFile(k: KmodCtx, rel: Bytes) returns (out: Status)
      modifies this`pathsSeen, this`log
      ensures Result(St(), out) == KmodOne(env.fs, k, old(St()), rel)
    {
      hide KmodPath, Join;
      var dst := Join(k.dstRoot, rel);
      if dst in pathsSeen {
        return Ok;
      }
      pathsSeen := pathsSeen + {dst};
      out := ArchiveKmodPath(Join(k.root, rel), dst);
    }

    method KmodFilesTry(k: KmodCtx, rels: seq<Bytes>) returns (out: Status)
      modifies this`pathsSeen, this`log
      ensures Result(St(), out) == KmodTry(env.fs, k, old(St()), rels)
    {
      hide KmodOne;
      var i := 0;
      assert rels[0..] == rels;
      while i < |rels|
        invariant i <= |rels|
        invariant KmodTry(env.fs, k, St(), rels[i..]) == KmodTry(env.fs, k, old(St()), rels)
      {
        assert rels[i..][1..] == rels[i + 1..];
        out := KmodFile(k, rels[i]);
        i := i + 1;
        if out == Err(Other) {
          return;
        }
      }
      return Ok;
    }

    method KmodHardDeps(k: KmodCtx, deps: seq<Bytes>) returns (out: Status)
      modifies this`pathsSeen, this`log
      ensures Result(St(), out) == KmodHard(env.fs, k, old(St()), deps)
    {
      hide KmodOne;
      var i := 0;
      assert deps[0..] == deps;
      while i < |deps|
        invariant i <= |deps|
        invariant KmodHard(env.fs, k, St(), deps[i..]) == KmodHard(env.fs, k, old(St()), deps)
      {
        assert deps[i..][1..] == deps[i + 1..];
        out := KmodFile(k, deps[i]);
        i := i + 1;
        if out.Err? {
          return;
        }
      }
      return Ok;
    }

    /** `gather_archive_kmod_and_deps`. */
    method GatherKmodAndDeps(k: KmodCtx, name: Bytes) returns (out: Status)
      modifies this`pathsSeen, this`log
      ensures Result(St(), out) == KmodRequest(env.fs, k, old(St()), name)
    {
      hide KmodOne, KmodHard, KmodTry, FindModule, Loadable;
      var found := FindModule(k.index, name);
      if found.None? {
        return Err(NotFound);
      }
      var m := found.value;
      if m.builtin || KmodDst(k, m.relPath) in pathsSeen {
        return Ok;
      }
      out := KmodFile(k, m.relPath);
      if out.Err? {
        return;
      }
      out := KmodHardDeps(k, m.hard);
      if out.Err? {
        return;
      }
      out := KmodFilesTry(k, Loadable(k.index, SoftNames(m)));
    }

    /** `gather_archive_kmods` for one name. */
    method GatherKmod(args: seq<string>, ignoreMissing: bool) returns (out: Status)
      modifies this`pathsSeen, this`log, this`kmodsReady
      ensures RunResult(Now(), out) == KmodLine(env, old(Now()), args, ignoreMissing)
    {
      hide KmodTry, KmodRequest, Encode, ModuleDbFiles;
      if args == [] || env.kmods.None? {
        return Err(Other);
      }
      var k := env.kmods.value;
      if !kmodsReady {
        out := KmodFilesTry(k, ModuleDbFiles());
        if out.Err? {
          return Err(Other);
        }
        kmodsReady := true;
      }
      out := GatherKmodAndDeps(k, Encode(args[0]));
      if ignoreMissing && out == Err(NotFound) {
        return Ok;
      }
    }

    method NameOf(name: Option<string>) returns (r: Option<Bytes>)
      ensures r == NameSub(env, name)
    {
      hide Template.SubPathVars, Encode;
      if name.None? {
        return None;
      }
      var p := Template.Substitute(env.conf, name.value);
      r := if p.None? then None else Some(Encode(p.value));
    }

    method AbsPathOf(name: Option<string>) returns (r: Option<Path>)
      ensures r == AbsName(env, name)
    {
      hide NameSub, Absolute;
      var p := NameOf(name);
      r := if p.None? then None else Absolute(env.fs.cwd, p.value);
    }

    method ManifestDir(args: seq<string>) returns (out: Status)
      modifies this`pathsSeen, this`log
      ensures Result(St(), out) == DirLine(env, old(St()), args)
    {
      hide AbsName, PutUnder, Render;
      var p := AbsPathOf(Arg(args, 0));
      if p.None? {
        return Err(Other);
      }
      if p.value in pathsSeen {
        return Ok;
      }
      out := ArchiveUnder(p.value, DIR_MD, PathCall(Render(p.value), DIR_MD), Mocked);
    }

    method ManifestSlink(args: seq<string>) returns (out: Status)
      modifies this`pathsSeen, this`log
      ensures Result(St(), out) == SlinkLine(env, old(St()), args)
    {
      hide AbsName, NameSub, PutUnder, Render;
      var p := AbsPathOf(Arg(args, 0));
      if p.None? {
        return Err(Other);
      }
      if p.value in pathsSeen {
        return Ok;
      }
      var target := NameOf(Arg(args, 1));
      if target.None? {
        return Err(Other);
      }
      out := ArchiveUnder(p.value, SLINK_MD, LinkCall(Render(p.value), SLINK_MD, target.value), Mocked);
    }

    method ManifestFile(args: seq<string>) returns (out: Status)
      modifies this`pathsSeen, this`log
      ensures Result(St(), out) == FileLine(env, old(St()), args)
    {
      hide AbsName, NameSub, PutUnder, Render, MdFrom, OpenNode, ParsePath;
      var p := AbsPathOf(Arg(args, 0));
      if p.None? {
        return Err(Other);
      }
      if p.value in pathsSeen {
        return Ok;
      }
      if Arg(args, 1).None? {
        out := ArchiveUnder(p.value, DEFAULT_MD, PathCall(Render(p.value), DEFAULT_MD), Mocked);
        return;
      }
      var src := NameOf(Arg(args, 1));
      if src.None? {
        return Err(Other);
      }
      var at := ParsePath(src.value);
      var node := OpenNode(env.fs, at);
      if node.None? {
        return Err(NotFound);
      }
      var amd := MdFrom(CUT_PROPS, node.value.stat);
      if amd.None? {
        return Err(Other);
      }
      out := ArchiveUnder(p.value, amd.value, FileCall(Render(p.value), amd.value, node.value.content), Copied(at));
    }

    method ManifestTree(args: seq<string>) returns (out: Status)
      modifies this`pathsSeen, this`log
      ensures Result(St(), out) == TreeLine(env, old(St()), args)
    {
      hide AbsName, NameSub, TreeRun, ParsePath;
      var dst := AbsPathOf(Arg(args, 0));
      if dst.None? {
        return Err(Other);
      }
      var src := NameOf(Arg(args, 1));
      if src.None? {
        return Err(Other);
      }
      out := GatherData(ParsePath(src.value), dst.value);
    }

    method ManifestBin(args: seq<string>, try_: bool) returns (out: Status)
      modifies this`pathsSeen, this`libsSeen, this`log
      ensures Result(St(), out) == BinLine(env, old(St()), args, try_)
    {
      hide NameSub, Elfs;
      var src := NameOf(Arg(args, 0));
      if src.None? {
        return Err(Other);
      }
      out := GatherElfs([if try_ then NamedTry(src.value) else Named(src.value)]);
    }

    method ManifestFilter(args: seq<string>) returns (out: Status)
      modifies this`pathsSeen
      ensures Result(St(), out) == FilterLine(env, old(St()), args)
    {
      hide AbsName;
      var p := AbsPathOf(Arg(args, 0));
      if p.None? {
        return Err(Other);
      }
      pathsSeen := pathsSeen + {p.value};
      return Ok;
    }

    /** `manifest_autorun`. */
    method ManifestAutorun(loc: string) returns (out: Status)
      modifies this`pathsSeen, this`log, this`autorunIdx
      ensures RunResult(Now(), out) == AutorunOne(env, old(Now()), loc)
    {
      hide AbsName, Put, Render, MdFrom, OpenNode, AutorunDir, AutorunDst;
      var at := AbsPathOf(Some(loc));
      if at.None? {
        return Err(Other);
      }
      var src := at.value;
      if src.comps == [] || src.comps[|src.comps| - 1] == DOT_DOT {
        return Err(Other);
      }
      var dst := AutorunDst(autorunIdx, src.comps[|src.comps| - 1]);
      if autorunIdx == 0 {
        PutKeeps(St(), AutorunDir(), PathCall(Render(AutorunDir()), DIR_MD), NumberedDir);
        out := Archive(AutorunDir(), PathCall(Render(AutorunDir()), DIR_MD), NumberedDir);
        if out.Err? {
          return;
        }
        pathsSeen := pathsSeen + {AutorunDir()};
      }
      var node := OpenNode(env.fs, src);
      if node.None? {
        return Err(NotFound);
      }
      var amd := MdFrom(CUT_PROPS, node.value.stat);
      if amd.None? {
        return Err(Other);
      }
      out := Archive(dst, FileCall(Render(dst), amd.value, node.value.content), Numbered(src, autorunIdx));
      if out.Ok? {
        autorunIdx := autorunIdx + 1;
      }
    }

    method ManifestAutoruns(locs: seq<string>) returns (out: Status)
      modifies this`pathsSeen, this`log, this`autorunIdx
      ensures RunResult(Now(), out) == AutorunLine(env, old(Now()), locs)
    {
      hide AutorunOne;
      if locs == [] {
        return Err(Other);
      }
      var i := 0;
      assert locs[0..] == locs;
      while i < |locs|
        invariant i <= |locs|
        invariant AutorunAll(env, Now(), locs[i..]) == AutorunAll(env, old(Now()), locs)
      {
        assert locs[i..][1..] == locs[i + 1..];
        out := ManifestAutorun(locs[i]);
        i := i + 1;
        if out.Err? {
          return;
        }
      }
      return Ok;
    }

    /** `manifest_parse_one`, but for `include` lines that open a manifest. */
    method ManifestParseOne(line: Line) returns (out: Status)
      modifies this
      ensures RunResult(Now(), out) == LineRun(env, old(Now()), line)
    {
      hide DirLine, SlinkLine, FileLine, BinLine, KmodLine, TreeLine, FilterLine, AutorunLine;
      if IsBlank(line) {
        return Ok;
      }
      var args := line[1..];
      match line[0] {
        case "dir" => out := ManifestDir(args);
        case "slink" => out := ManifestSlink(args);
        case "file" => out := ManifestFile(args);
        case "bin" => out := ManifestBin(args, false);
        case "try-bin" => out := ManifestBin(args, true);
        case "kmod" => out := GatherKmod(args, false);
        case "try-kmod" => out := GatherKmod(args, true);
        case "autorun" => out := ManifestAutoruns(args);
        case "tree" => out := ManifestTree(args);
        case "filter" => out := ManifestFilter(args);
        case _ => out := Err(Other);
      }
      if out.Ok? && Trailing(line) {
        return Err(Other);
      }
    }

    /** `manifest_parse`: the stack of open manifests, read from its last element.
        It runs exactly the lines of the in-place expansion, and it ends whenever
        no manifest includes itself, directly or through others. */
    method ManifestParse(fests: seq<seq<Line>>) returns (out: Status)
      requires NoCycle(env)
      modifies this
      ensures RunResult(Now(), out) == RunLines(env, old(Now()), Expansion(env, fests))
    {
      hide RunLines, ExpandStack, Acyclic, StackOk, NoCycle;
      AllBounded(env, fests);
      out := ParseStack(fests, RankOf(env), Bounds(env, fests));
    }

    /** The loop, with the measure that ends it. */
    method ParseStack(fests0: seq<seq<Line>>, ghost rank: Ranks, ghost bounds0: seq<nat>) returns (out: Status)
      requires Acyclic(env, rank) && StackOk(env, rank, fests0, bounds0)
      modifies this
      ensures RunResult(Now(), out) == RunLines(env, old(Now()), ExpandStack(env, rank, fests0, bounds0))
    {
      hide Acyclic, StackOk, Bounded, Expand, ExpandStack, RoundsLeft, Rounds, IncludeTarget, LineRun;
      var fests := fests0;
      ghost var bounds := bounds0;
      ghost var goal := RunLines(env, Now(), ExpandStack(env, rank, fests0, bounds0));
      while fests != []
        invariant StackOk(env, rank, fests, bounds)
        invariant RunLines(env, Now(), ExpandStack(env, rank, fests, bounds)) == goal
        decreases RoundsLeft(env, rank, fests, bounds)
      {
        var n := |fests| - 1;
        var fest := fests[n];
        StackSizes(env, rank, fests, bounds);
        ghost var rest, bs, b := fests[..n], bounds[..n], bounds[n];
        TopFrame(env, rank, fests, bounds);
        assert fests == rest + [fest] && bounds == bs + [b];
        if fest == [] {
          NoLines(env, rank, b, ExpandStack(env, rank, rest, bs));
          fests, bounds := fests[..n], bs;
          continue;
        }
        NextLine(env, rank, rest, bs, fest, b);
        var line := fest[0];
        fests := fests[..n] + [fest[1..]];
        var target := IncludeTarget(env, line);
        if target.Some? {
          PushFrame(env, rank, fests, bounds, env.manifests[target.value], rank[target.value]);
          fests, bounds := fests + [env.manifests[target.value]], bounds + [rank[target.value]];
          continue;
        }
        FirstRuns(env, Now(), line, ExpandStack(env, rank, fests, bounds));
        out := ManifestParseOne(line);
        if out.Err? {
          return;
        }
      }
      StackSizes(env, rank, fests, bounds);
      assert bounds == [];
      NoStack(env, rank);
      return Ok;
    }
  }

  lemma PutKeeps(st: State, dst: Path, call: Call, origin: Origin)
    ensures Put(st, dst, call, origin).out.Err? ==> Put(st, dst, call, origin).st == st
    ensures Put(st, dst, call, origin).st.seen == st.seen && Put(st, dst, call, origin).st.libs == st.libs
  {
    hide Accepted;
  }

  lemma StackSizes(env: Env, rank: Ranks, stack: seq<seq<Line>>, bounds: seq<nat>)
    requires StackOk(env, rank, stack, bounds)
    ensures |stack| == |bounds|
  {
    hide Bounded;
  }

  lemma NoLines(env: Env, rank: Ranks, b: nat, more: seq<Line>)
    requires Acyclic(env, rank) && Bounded(env, rank, [], b)
    ensures Expand(env, rank, [], b) + more == more
  {
    hide Acyclic, Bounded;
  }

  lemma NoStack(env: Env, rank: Ranks)
    requires Acyclic(env, rank)
    ensures StackOk(env, rank, [], []) && ExpandStack(env, rank, [], []) == []
  {
    hide Acyclic, Bounded;
  }

  lemma FirstRuns(env: Env, run: Run, line: Line, more: seq<Line>)
    ensures RunLines(env, run, [line] + more) ==
            var r := LineRun(env, run, line);
            if r.out.Err? then r else RunLines(env, r.run, more)
  {
    hide LineRun;
    assert ([line] + more)[1..] == more;
  }
}
