/** Manifest lines of src/bin/rapido-cut.rs, and what holds over whole runs. */
module Manifest {
  import opened Strings
  import opened Newc
  import opened Cpio
  import opened HostFs
  import opened Gather
  import opened GatherOnce
  import opened GatherParents
  import opened ElfWorklist
  import opened TreeWorklist
  import opened TreeListing
  import opened KmodGather
  import opened Numbers
  import Template

  /** A line as `split_whitespace` delivers it. */
  type Line = seq<string>

  type Conf = map<string, string>

  /** `kmods` is None when the module index cannot be loaded. */
  datatype Env = Env(fs: Fs, conf: Conf, kmods: Option<KmodCtx>, manifests: map<Path, seq<Line>>)

  datatype Run = Run(st: State, kmodsReady: bool, autorun: nat)

  datatype RunResult = RunResult(run: Run, out: Status)

  const DEFAULT_MD := Md(1, 0x8000 + 493, 0, 0, 0, 0, 0, 0)
  const DIR_MD := DEFAULT_MD.(mode := 0x4000 + 493)
  const SLINK_MD := DEFAULT_MD.(mode := 0xA000 + 511)

  function Arg(args: seq<string>, i: nat): Option<string> { if i < |args| then Some(args[i]) else None }

  /** `manifest_name_sub` and `manifest_name_sub_abs_path`. */
  function NameSub(env: Env, name: Option<string>): Option<Bytes> {
    match name
    case None => None
    case Some(n) => match Template.SubPathVars(env.conf, n) case None => None case Some(p) => Some(Encode(p))
  }

  function AbsName(env: Env, name: Option<string>): Option<Path> {
    match NameSub(env, name) case None => None case Some(p) => Absolute(env.fs.cwd, p)
  }

  /** Opening a file follows symlinks. */
  function OpenNode(fs: Fs, p: Path): Option<Node> {
    if p !in fs.nodes then None
    else if !IsLink(fs.nodes[p]) then Some(fs.nodes[p])
    else
      match fs.nodes[p].canon
      case None => None
      case Some(t) => if t in fs.nodes then Some(fs.nodes[t]) else None
  }

  function DirLine(env: Env, st: State, args: seq<string>): Result
  {
    match AbsName(env, Arg(args, 0))
    case None => Result(st, Err(Other))
    case Some(p) =>
      if p in st.seen then Result(st, Ok)
      else PutUnder(st, p, DIR_MD, PathCall(Render(p), DIR_MD), Mocked)
  }

  function SlinkLine(env: Env, st: State, args: seq<string>): Result
  {
    match AbsName(env, Arg(args, 0))
    case None => Result(st, Err(Other))
    case Some(p) =>
      if p in st.seen then Result(st, Ok)
      else
        match NameSub(env, Arg(args, 1))
        case None => Result(st, Err(Other))
        case Some(target) => PutUnder(st, p, SLINK_MD, LinkCall(Render(p), SLINK_MD, target), Mocked)
  }

  function FileLine(env: Env, st: State, args: seq<string>): Result
  {
    match AbsName(env, Arg(args, 0))
    case None => Result(st, Err(Other))
    case Some(p) =>
      if p in st.seen then Result(st, Ok)
      else if Arg(args, 1).None? then PutUnder(st, p, DEFAULT_MD, PathCall(Render(p), DEFAULT_MD), Mocked)
      else
        match NameSub(env, Arg(args, 1))
        case None => Result(st, Err(Other))
        case Some(src) => FileFrom(env.fs, st, p, ParsePath(src))
  }

  function FileFrom(fs: Fs, st: State, p: Path, src: Path): Result
  {
    match OpenNode(fs, src)
    case None => Result(st, Err(NotFound))
    case Some(node) =>
      match MdFrom(CUT_PROPS, node.stat)
      case None => Result(st, Err(Other))
      case Some(md) => PutUnder(st, p, md, FileCall(Render(p), md, node.content), Copied(src))
  }

  function TreeLine(env: Env, st: State, args: seq<string>): Result
  {
    match (AbsName(env, Arg(args, 0)), NameSub(env, Arg(args, 1)))
    case (Some(dst), Some(src)) => TreeRun(env.fs, ParsePath(src), dst, st)
    case _ => Result(st, Err(Other))
  }

  function FilterLine(env: Env, st: State, args: seq<string>): Result
  {
    match AbsName(env, Arg(args, 0))
    case None => Result(st, Err(Other))
    case Some(p) => Result(See(st, p), Ok)
  }

  function BinLine(env: Env, st: State, args: seq<string>, try_: bool): Result
  {
    match NameSub(env, Arg(args, 0))
    case None => Result(st, Err(Other))
    case Some(src) => Elfs(env.fs, [if try_ then NamedTry(src) else Named(src)], st)
  }

  /** `gather_archive_kmods` for one name; `ready` once the index is loaded. */
  function KmodLine(env: Env, run: Run, args: seq<string>, try_: bool): RunResult
  {
    hide KmodInit, KmodRequest, Encode;
    if args == [] || env.kmods.None? then RunResult(run, Err(Other))
    else
      var init := if run.kmodsReady then Result(run.st, Ok) else KmodInit(env.fs, env.kmods.value, run.st);
      if init.out.Err? then RunResult(run.(st := init.st), Err(Other))
      else
        var r := KmodRequest(env.fs, env.kmods.value, init.st, Encode(args[0]));
        RunResult(run.(st := r.st, kmodsReady := true), if try_ && r.out == Err(NotFound) then Ok else r.out)
  }

  // ---- autorun ------------------------------------------------------------

  function AutorunDir(): Path { Path(true, [Encode("rapido_autorun")]) }

  function AutorunDst(idx: nat, name: Bytes): Path {
    Path(true, AutorunDir().comps + [Decimal3(idx) + [45] + name])
  }

  /** One location of an `autorun` line: the numbered destination, and the parent
      of the first one, are archived without a look at the seen paths. */
  function AutorunOne(env: Env, run: Run, loc: string): RunResult
  {
    match AbsName(env, Some(loc))
    case None => RunResult(run, Err(Other))
    case Some(src) =>
      if src.comps == [] || src.comps[|src.comps| - 1] == DOT_DOT then RunResult(run, Err(Other))
      else
        var dst := AutorunDst(run.autorun, src.comps[|src.comps| - 1]);
        var dir := if run.autorun == 0 then Put(run.st, AutorunDir(), PathCall(Render(AutorunDir()), DIR_MD), NumberedDir)
                   else Result(run.st, Ok);
        if dir.out.Err? then RunResult(run, dir.out)
        else
          var st := if run.autorun == 0 then See(dir.st, AutorunDir()) else run.st;
          match OpenNode(env.fs, src)
          case None => RunResult(run.(st := st), Err(NotFound))
          case Some(node) =>
            match MdFrom(CUT_PROPS, node.stat)
            case None => RunResult(run.(st := st), Err(Other))
            case Some(md) =>
              var put := Put(st, dst, FileCall(Render(dst), md, node.content), Numbered(src, run.autorun));
              RunResult(Run(put.st, run.kmodsReady, if put.out.Ok? then run.autorun + 1 else run.autorun), put.out)
  }

  function AutorunAll(env: Env, run: Run, locs: seq<string>): RunResult
    decreases |locs|
  {
    if locs == [] then RunResult(run, Ok)
    else
      var r := AutorunOne(env, run, locs[0]);
      if r.out.Err? then r else AutorunAll(env, r.run, locs[1..])
  }

  function AutorunLine(env: Env, run: Run, locs: seq<string>): RunResult {
    if locs == [] then RunResult(run, Err(Other)) else AutorunAll(env, run, locs)
  }

  function Lift(run: Run, r: Result): RunResult { RunResult(run.(st := r.st), r.out) }

  /** Are there more parameters than a line takes? */
  predicate Trailing(line: Line)
    requires line != []
  {
    var etype, n := line[0], |line| - 1;
    etype != "autorun" && n > if etype == "slink" || etype == "file" || etype == "tree" then 2 else 1
  }

  /** One line; of `include` lines, only those that fail are executed in place. */
  function Directive(env: Env, run: Run, etype: string, args: seq<string>): RunResult
  {
    if etype == "dir" then Lift(run, DirLine(env, run.st, args))
    else if etype == "slink" then Lift(run, SlinkLine(env, run.st, args))
    else if etype == "file" then Lift(run, FileLine(env, run.st, args))
    else if etype == "bin" then Lift(run, BinLine(env, run.st, args, false))
    else if etype == "try-bin" then Lift(run, BinLine(env, run.st, args, true))
    else if etype == "kmod" then KmodLine(env, run, args, false)
    else if etype == "try-kmod" then KmodLine(env, run, args, true)
    else if etype == "tree" then Lift(run, TreeLine(env, run.st, args))
    else if etype == "filter" then Lift(run, FilterLine(env, run.st, args))
    else if etype == "autorun" then AutorunLine(env, run, args)
    else RunResult(run, Err(Other))
  }

  predicate IsBlank(line: Line) { line == [] || (line[0] != "" && line[0][0] == '#') }

  /** `manifest_parse_one`: parameters left over are an error, after the fact. */
  function LineRun(env: Env, run: Run, line: Line): RunResult
  {
    if IsBlank(line) then RunResult(run, Ok)
    else
      var r := Directive(env, run, line[0], line[1..]);
      if r.out.Ok? && Trailing(line) then RunResult(r.run, Err(Other)) else r
  }

  function RunLines(env: Env, run: Run, lines: seq<Line>): RunResult
    decreases |lines|
  {
    hide LineRun;
    if lines == [] then RunResult(run, Ok)
    else
      var r := LineRun(env, run, lines[0]);
      if r.out.Err? then r else RunLines(env, r.run, lines[1..])
  }

  // ---- what every line keeps ----------------------------------------------

  /** The invariants of a run: everything archived is new, and parents come first. */
  ghost predicate Keeps(a: State, b: State) { Ext(a, b) && (ParentsFirst(a) ==> ParentsFirst(b)) }

  lemma {:induction false} PutUnderSound(st: State, dst: Path, md: Md, call: Call, origin: Origin)
    requires dst !in st.seen && call.path == Render(dst) && !origin.Scanned? && !ByAutorun(origin)
    ensures Sound(st, PutUnder(st, dst, md, call, origin).st)
  {
    hide Ext, Calm, ParentsFirst, Dirs, Accepted, Render;
    PutUnderExt(st, dst, md, call, origin);
    if ParentsFirst(st) { PutUnderParents(st, dst, md, call, origin); }
    CalmDirs(st, Parent(dst), md);
    var dirs := Dirs(st, Parent(dst), md);
    if dirs.out.Ok? {
      var put := Put(dirs.st, dst, call, origin);
      CalmPut(dirs.st, dst, call, origin);
      CalmTrans(st, dirs.st, put.st);
      CalmSee(put.st, dst);
      CalmTrans(st, put.st, See(put.st, dst));
    }
  }

  lemma {:induction false} DataRoundCalm(fs: Fs, st: State, item: Item)
    ensures Calm(st, DataRound(fs, st, item).st)
  {
    hide Calm, MdFrom, Dirs, DataCall, Accepted, Sort, ChildItems;
    CalmSelf(st);
    if item.src in fs.nodes && item.dst !in st.seen && MdFrom(CUT_PROPS, fs.nodes[item.src].stat).Some? {
      var node := fs.nodes[item.src];
      var md := MdFrom(CUT_PROPS, node.stat).value;
      var seen := See(st, item.dst);
      var dirs := if item.ignoreParent then Result(seen, Ok) else Dirs(seen, Parent(item.dst), md);
      CalmSee(st, item.dst);
      CalmSelf(seen);
      CalmDirs(seen, Parent(item.dst), md);
      CalmTrans(st, seen, dirs.st);
      CalmPut(dirs.st, item.dst, DataCall(item.dst, node, md), Copied(item.src));
      CalmTrans(st, dirs.st, Put(dirs.st, item.dst, DataCall(item.dst, node, md), Copied(item.src)).st);
    }
  }

  lemma CalmSelf(st: State)
    ensures Calm(st, st)
  {
  }

  lemma {:induction false} DataCalm(fs: Fs, src0: Path, dst0: Path, items: seq<Item>, st: State)
    requires AllRelated(items, src0, dst0)
    ensures Calm(st, DataRun(fs, src0, dst0, items, st).st)
    decreases Untouched(fs, src0, dst0, st), |items|
  {
    hide Calm, DataRound, Untouched, Related, DataRun, AllRelated;
    CalmSelf(st);
    if items == [] {
      DataEmpty(fs, src0, dst0, st);
    } else {
      var item, rest := items[|items| - 1], items[..|items| - 1];
      assert items == rest + [item];
      RelatedConcat(items, items, src0, dst0);
      DataStepIs(fs, src0, dst0, rest, item, st);
      DataRoundCalm(fs, st, item);
      var r := DataRound(fs, st, item);
      if r.out.Ok? {
        DataCalm(fs, src0, dst0, rest + r.push, r.st);
        CalmTrans(st, r.st, DataRun(fs, src0, dst0, rest + r.push, r.st).st);
      }
    }
  }

  lemma {:induction false} TreeRunSound(fs: Fs, src: Path, dst: Path, st: State)
    ensures Sound(st, TreeRun(fs, src, dst, st).st)
  {
    hide Ext, Calm, ParentsFirst, DataRun, AllRelated;
    RootRelated(src, dst);
    var items := [Item(src, dst, false)];
    DataExt(fs, src, dst, items, st);
    DataCalm(fs, src, dst, items, st);
    if ParentsFirst(st) { DataParents(fs, src, dst, items, st); }
  }

  lemma {:induction false} FileLineSound(env: Env, st: State, args: seq<string>)
    ensures Sound(st, FileLine(env, st, args).st)
  {
    hide Sound, AbsName, NameSub, PutUnder, Render, MdFrom, OpenNode;
    SoundSelf(st);
    var p := AbsName(env, Arg(args, 0));
    if p.Some? && p.value !in st.seen {
      PutUnderSound(st, p.value, DEFAULT_MD, PathCall(Render(p.value), DEFAULT_MD), Mocked);
      var src := NameSub(env, Arg(args, 1));
      if src.Some? {
        var node := OpenNode(env.fs, ParsePath(src.value));
        if node.Some? && MdFrom(CUT_PROPS, node.value.stat).Some? {
          var md := MdFrom(CUT_PROPS, node.value.stat).value;
          PutUnderSound(st, p.value, md, FileCall(Render(p.value), md, node.value.content), Copied(ParsePath(src.value)));
        }
      }
    }
  }

  lemma {:induction false} SimpleLinesSound(env: Env, st: State, args: seq<string>)
    ensures Sound(st, DirLine(env, st, args).st)
    ensures Sound(st, SlinkLine(env, st, args).st)
    ensures Sound(st, TreeLine(env, st, args).st)
    ensures Sound(st, FilterLine(env, st, args).st)
  {
    hide Sound, AbsName, NameSub, PutUnder, Render, TreeRun;
    SoundSelf(st);
    var p := AbsName(env, Arg(args, 0));
    var t := NameSub(env, Arg(args, 1));
    if p.Some? {
      SoundSee(st, p.value);
      if p.value !in st.seen {
        PutUnderSound(st, p.value, DIR_MD, PathCall(Render(p.value), DIR_MD), Mocked);
        if t.Some? {
          PutUnderSound(st, p.value, SLINK_MD, LinkCall(Render(p.value), SLINK_MD, t.value), Mocked);
        }
      }
      if t.Some? { TreeRunSound(env.fs, ParsePath(t.value), p.value, st); }
    }
  }

  lemma {:induction false} KmodLineSound(env: Env, run: Run, args: seq<string>, try_: bool)
    ensures Sound(run.st, KmodLine(env, run, args, try_).run.st)
  {
    hide Sound, KmodTry, KmodRequest, ModuleDbFiles, Encode;
    SoundSelf(run.st);
    if args != [] && env.kmods.Some? {
      var k := env.kmods.value;
      KmodTrySound(env.fs, k, run.st, ModuleDbFiles());
      var init := if run.kmodsReady then Result(run.st, Ok) else KmodInit(env.fs, k, run.st);
      KmodRequestSound(env.fs, k, init.st, Encode(args[0]));
      SoundTrans(run.st, init.st, KmodRequest(env.fs, k, init.st, Encode(args[0])).st);
    }
  }

  lemma {:induction false} BinLineKeeps(env: Env, st: State, args: seq<string>, try_: bool)
    ensures Keeps(st, BinLine(env, st, args, try_).st)
  {
    hide Ext, ParentsFirst, NameSub, Elfs;
    ExtSelf(st);
    var src := NameSub(env, Arg(args, 0));
    if src.Some? {
      var stack := [if try_ then NamedTry(src.value) else Named(src.value)];
      ElfsExt(env.fs, stack, st);
      if ParentsFirst(st) { ElfsParents(env.fs, stack, st); }
    }
  }

  lemma SoundKeeps(a: State, b: State)
    requires Sound(a, b)
    ensures Keeps(a, b)
  {
  }

  lemma {:induction false} DirectiveKeeps(env: Env, run: Run, etype: string, args: seq<string>)
    requires etype != "autorun"
    ensures Keeps(run.st, Directive(env, run, etype, args).run.st)
  {
    hide Keeps, Sound, DirLine, SlinkLine, FileLine, BinLine, KmodLine, TreeLine, FilterLine, AutorunLine;
    SoundSelf(run.st);
    SimpleLinesSound(env, run.st, args);
    FileLineSound(env, run.st, args);
    KmodLineSound(env, run, args, false);
    KmodLineSound(env, run, args, true);
    BinLineKeeps(env, run.st, args, false);
    BinLineKeeps(env, run.st, args, true);
    var r := Directive(env, run, etype, args);
    if Sound(run.st, r.run.st) { SoundKeeps(run.st, r.run.st); }
  }

  lemma {:induction false} KeepsTrans(a: State, b: State, c: State)
    requires Keeps(a, b) && Keeps(b, c)
    ensures Keeps(a, c)
  {
    hide Ext, ParentsFirst;
    ExtTrans(a, b, c);
  }

  predicate NoAutorun(lines: seq<Line>) {
    forall i :: 0 <= i < |lines| ==> lines[i] == [] || lines[i][0] != "autorun"
  }

  /** Whole runs: over any sequence of manifest lines other than `autorun`, from
      any state, what is archived is new and archived once, and parents come
      first. */
  lemma {:induction false} RunKeeps(env: Env, run: Run, lines: seq<Line>)
    requires NoAutorun(lines)
    ensures Keeps(run.st, RunLines(env, run, lines).run.st)
    decreases |lines|
  {
    hide Keeps, Sound, Directive;
    SoundSelf(run.st);
    SoundKeeps(run.st, run.st);
    if lines != [] {
      var line := lines[0];
      if !IsBlank(line) { DirectiveKeeps(env, run, line[0], line[1..]); }
      var r := LineRun(env, run, line);
      if r.out.Ok? {
        RunKeeps(env, r.run, lines[1..]);
        KeepsTrans(run.st, r.run.st, RunLines(env, r.run, lines[1..]).run.st);
      }
    }
  }

  const FRESH_RUN := Run(State({}, {}, []), false, 0)

  /** The invariants for a run from the start. */
  lemma {:induction false} ManifestRunSound(env: Env, lines: seq<Line>)
    requires NoAutorun(lines)
    ensures var st := RunLines(env, FRESH_RUN, lines).run.st; Once(st) && ParentsFirst(st)
  {
    hide RunLines, Ext, NoAutorun;
    RunKeeps(env, FRESH_RUN, lines);
    OnceKept(FRESH_RUN.st, RunLines(env, FRESH_RUN, lines).run.st);
  }
}
