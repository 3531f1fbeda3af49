/** Parents before children, exactly: which runs archive every ancestor of a path
    before it, and why a `filter` line can break this. */
module StrictParents {
  import opened Strings
  import opened Newc
  import opened ArchiveName
  import opened Cpio
  import opened HostFs
  import opened Gather
  import opened GatherParents
  import opened ElfWorklist
  import opened TreeWorklist
  import opened TreeListing
  import opened KmodClosure
  import opened Manifest
  import opened Libraries
  import opened ManifestLines

  /** Everything seen is archived. */
  ghost predicate Solid(st: State) { NoPhantoms(st, {}) }

  /** Lines that archive what they see: no `filter`, and no kernel modules, whose
      files may turn out to be missing. */
  predicate SolidLine(line: Line) {
    IsBlank(line) || line[0] in {"dir", "slink", "file", "tree", "bin", "try-bin"}
  }

  predicate SolidLines(lines: seq<Line>) { forall i :: 0 <= i < |lines| ==> SolidLine(lines[i]) }

  lemma {:induction false} DirsSolid(st: State, path: Option<Path>, md: Md)
    requires Solid(st) && Dirs(st, path, md).out.Ok?
    ensures Solid(Dirs(st, path, md).st)
  {
    hide NoPhantoms, DirsFrom, ParentMd;
    if path.Some? && path.value !in st.seen {
      DirsFromNoPhantoms(st, [], path.value.comps, ParentMd(md), {});
    }
  }

  lemma {:induction false} PutSolid(st: State, dst: Path, call: Call, origin: Origin)
    requires Solid(st) && Put(st, dst, call, origin).out.Ok?
    ensures Solid(See(Put(st, dst, call, origin).st, dst))
  {
    hide NoPhantoms, Accepted;
    SeePutOrder(st, dst, call, origin);
    SeenAndPut(st, dst, call, origin, {});
  }

  lemma {:induction false} PutUnderSolid(st: State, dst: Path, md: Md, call: Call, origin: Origin)
    requires Solid(st) && PutUnder(st, dst, md, call, origin).out.Ok?
    ensures Solid(PutUnder(st, dst, md, call, origin).st)
  {
    hide Solid, Dirs, Put;
    DirsSolid(st, Parent(dst), md);
    PutSolid(Dirs(st, Parent(dst), md).st, dst, call, origin);
  }

  lemma SolidLibs(st: State, libs: set<Bytes>)
    requires Solid(st)
    ensures Solid(st.(libs := libs))
  {
    hide Archived;
  }

  lemma {:induction false} ElfStepSolid(fs: Fs, st: State, ent: Ent)
    requires Solid(st) && ElfStep(fs, st, ent).out.Ok?
    ensures Solid(ElfStep(fs, st, ent).st)
  {
    hide Solid, Locate, MdFrom, Dirs, Put, PlanElf, Render;
    var path := Locate(fs, ent);
    if path.Some? && DstOf(ent, path.value) !in st.seen {
      var node := fs.nodes[path.value];
      var md := MdFrom(CUT_PROPS, node.stat).value;
      var dst := DstOf(ent, path.value);
      var dirs := Dirs(st, Parent(dst), md);
      DirsSolid(st, Parent(dst), md);
      var plan := PlanElf(dirs.st, ent, path.value, node, md);
      if plan.Plan? {
        SolidLibs(dirs.st, plan.libs);
        PutSolid(dirs.st.(libs := plan.libs), dst, plan.call, Scanned(path.value, IsLib(ent)));
      }
    }
  }

  lemma {:induction false} ElfsSolid(fs: Fs, stack: seq<Ent>, st: State)
    requires Solid(st) && Elfs(fs, stack, st).out.Ok?
    ensures Solid(Elfs(fs, stack, st).st)
    decreases Renamed(stack), Unseen(fs, st), |stack|
  {
    hide Solid, ElfStep, Unseen;
    if stack != [] {
      var ent, rest := stack[|stack| - 1], stack[..|stack| - 1];
      var r := ElfStep(fs, st, ent);
      ElfStepSolid(fs, st, ent);
      StepMeasure(fs, st, ent);
      UnseenShrinks(fs, st, r.st);
      RenamedConcat(rest, r.push);
      ElfsSolid(fs, rest + r.push, r.st);
    }
  }

  lemma {:induction false} DataRoundSolid(fs: Fs, st: State, item: Item)
    requires Solid(st) && DataRound(fs, st, item).out.Ok?
    ensures Solid(DataRound(fs, st, item).st)
  {
    hide Solid, MdFrom, Dirs, Put, DataCall, Sort, ChildItems;
    if item.dst !in st.seen {
      var node := fs.nodes[item.src];
      var md := MdFrom(CUT_PROPS, node.stat).value;
      var call := DataCall(item.dst, node, md);
      DirsSee(st, item.dst, md);
      var dirs := if item.ignoreParent then Result(st, Ok) else Dirs(st, Parent(item.dst), md);
      if !item.ignoreParent { DirsSolid(st, Parent(item.dst), md); }
      SeePutOrder(dirs.st, item.dst, call, Copied(item.src));
      PutSolid(dirs.st, item.dst, call, Copied(item.src));
    }
  }

  lemma {:induction false} DataSolid(fs: Fs, src0: Path, dst0: Path, items: seq<Item>, st: State)
    requires AllRelated(items, src0, dst0) && Solid(st) && DataRun(fs, src0, dst0, items, st).out.Ok?
    ensures Solid(DataRun(fs, src0, dst0, items, st).st)
    decreases Untouched(fs, src0, dst0, st), |items|
  {
    hide Solid, DataRound, Untouched, Related, DataRun, AllRelated;
    if items == [] {
      DataEmpty(fs, src0, dst0, st);
    } else {
      var item, rest := items[|items| - 1], items[..|items| - 1];
      assert items == rest + [item];
      RelatedConcat(items, items, src0, dst0);
      DataStepIs(fs, src0, dst0, rest, item, st);
      DataRoundSolid(fs, st, item);
      var r := DataRound(fs, st, item);
      DataSolid(fs, src0, dst0, rest + r.push, r.st);
    }
  }

  lemma {:induction false} LineSolid(env: Env, run: Run, line: Line)
    requires Solid(run.st) && SolidLine(line) && LineRun(env, run, line).out.Ok?
    ensures Solid(LineRun(env, run, line).run.st)
  {
    hide Solid, AbsName, NameSub, PutUnder, Render, MdFrom, OpenNode, ParsePath, Elfs, DataRun, AllRelated, KmodLine, AutorunLine;
    if !IsBlank(line) {
      var st, args := run.st, line[1..];
      var p, t := AbsName(env, Arg(args, 0)), NameSub(env, Arg(args, 1));
      match line[0] {
        case "dir" =>
          if p.value !in st.seen {
            PutUnderSolid(st, p.value, DIR_MD, PathCall(Render(p.value), DIR_MD), Mocked);
          }
        case "slink" =>
          if p.value !in st.seen {
            PutUnderSolid(st, p.value, SLINK_MD, LinkCall(Render(p.value), SLINK_MD, t.value), Mocked);
          }
        case "file" =>
          if p.value !in st.seen {
            FileSolid(env, st, args, p.value);
          }
        case "tree" =>
          var src := ParsePath(t.value);
          RootRelated(src, p.value);
          DataSolid(env.fs, src, p.value, [Item(src, p.value, false)], st);
        case "bin" =>
          ElfsSolid(env.fs, [Named(NameSub(env, Arg(args, 0)).value)], st);
        case "try-bin" =>
          ElfsSolid(env.fs, [NamedTry(NameSub(env, Arg(args, 0)).value)], st);
        case _ =>
      }
    }
  }

  lemma {:induction false} FileSolid(env: Env, st: State, args: seq<string>, p: Path)
    requires Solid(st) && AbsName(env, Arg(args, 0)) == Some(p) && p !in st.seen && FileLine(env, st, args).out.Ok?
    ensures Solid(FileLine(env, st, args).st)
  {
    hide Solid, AbsName, NameSub, PutUnder, Render, MdFrom, OpenNode, ParsePath;
    if Arg(args, 1).None? {
      PutUnderSolid(st, p, DEFAULT_MD, PathCall(Render(p), DEFAULT_MD), Mocked);
    } else {
      var src := ParsePath(NameSub(env, Arg(args, 1)).value);
      var node := OpenNode(env.fs, src).value;
      var md := MdFrom(CUT_PROPS, node.stat).value;
      PutUnderSolid(st, p, md, FileCall(Render(p), md, node.content), Copied(src));
    }
  }

  lemma {:induction false} RunSolid(env: Env, run: Run, lines: seq<Line>)
    requires Solid(run.st) && RunLines(env, run, lines).out.Ok?
    requires SolidLines(lines)
    ensures Solid(RunLines(env, run, lines).run.st)
    decreases |lines|
  {
    hide Solid, LineRun, SolidLine;
    if lines != [] {
      LineSolid(env, run, lines[0]);
      RunSolid(env, LineRun(env, run, lines[0]).run, lines[1..]);
    }
  }

  lemma SolidNoAutorun(lines: seq<Line>)
    requires SolidLines(lines)
    ensures NoAutorun(lines)
  {
    forall j | 0 <= j < |lines| ensures lines[j] == [] || lines[j][0] != "autorun" {
      assert SolidLine(lines[j]);
    }
  }

  /** On such runs every library that an archived ELF file needs is archived itself,
      where the first file that needs it looks for it. */
  lemma {:induction false} EveryLibraryArchived(env: Env, lines: seq<Line>, i: nat, s: Bytes)
    requires SolidLines(lines)
    requires Tidy(env.fs) && RunLines(env, FRESH_RUN, lines).out.Ok?
    requires var log := RunLines(env, FRESH_RUN, lines).run.st.log; i < |log| && Asks(env.fs, log[i], s)
    ensures LibArchived(env.fs, RunLines(env, FRESH_RUN, lines).run.st.log, s)
  {
    hide RunLines, Tidy, Locate, SolidLines, LookupOf, Archived, ReadsNeeded;
    var st := RunLines(env, FRESH_RUN, lines).run.st;
    RunResolves(env, lines, i);
    RunSolid(env, FRESH_RUN, lines);
    var k: nat :| FirstAsks(env.fs, st.log, k, s) && FoundFor(env.fs, st, st.log[k], s);
    assert AsksWhole(env.fs, st.log[k], s) ==> ArchivedAt(st.log, Locate(env.fs, LookupOf(env.fs, st.log[k], s)));
  }

  ghost predicate LibArchived(fs: Fs, log: seq<LogEntry>, s: Bytes) {
    exists k: nat :: FirstAsks(fs, log, k, s)
      && (AsksWhole(fs, log[k], s) ==> ArchivedAt(log, Locate(fs, LookupOf(fs, log[k], s))))
  }

  predicate ArchivedAt(log: seq<LogEntry>, p: Option<Path>) { p.Some? && Archived(log, |log|, p.value) }

  // ---- the exact condition ------------------------------------------------

  ghost predicate AncestorsBefore(st: State, i: nat)
    requires i < |st.log|
  {
    var x := st.log[i].dst;
    forall n :: 0 < n < |x.comps| ==> Archived(st.log, i, Up(x, n))
  }

  ghost predicate NoPhantomAbove(st: State, x: Path) {
    forall n :: 0 < n < |x.comps| ==> !Phantom(st, Up(x, n))
  }

  /** A shadow above `x` is a phantom ancestor of `x`. */
  lemma {:induction false} ShadowIsAncestor(st: State, x: Path, n: nat)
    requires 0 < n < |x.comps| && Shadowed(st, Up(x, n), x)
    ensures !NoPhantomAbove(st, x)
  {
    hide Phantom;
    var h :| Phantom(st, h) && Above(Up(x, n), h) && Above(h, x) && h != x;
    assert h == Up(x, |h.comps|);
    assert |h.comps| != |x.comps|;
  }

  lemma {:induction false} AncestorsExact(st: State, i: nat)
    requires ParentsFirst(st) && i < |st.log| && Ordinary(st.log[i].dst)
    ensures AncestorsBefore(st, i) <==> NoPhantomAbove(st, st.log[i].dst)
  {
    hide Shadowed;
    var x := st.log[i].dst;
    assert Supported(st, i, x);
    if n :| 0 < n < |x.comps| && !Archived(st.log, i, Up(x, n)) { ShadowIsAncestor(st, x, n); }
    if AncestorsBefore(st, i) {
      forall n | 0 < n < |x.comps| ensures !Phantom(st, Up(x, n)) {
        ArchivedKept(st.log, st.log, i, |st.log|, Up(x, n));
      }
    }
  }

  /** Parent before child over any run without `autorun`, finished or not: all proper
      ancestors of an archived path stand before it if and only if none of them was
      seen without being archived. */
  lemma {:induction false} RunAncestorsExact(env: Env, lines: seq<Line>, i: nat)
    requires NoAutorun(lines)
    requires var log := RunLines(env, FRESH_RUN, lines).run.st.log; i < |log| && Ordinary(log[i].dst)
    ensures var st := RunLines(env, FRESH_RUN, lines).run.st;
            AncestorsBefore(st, i) <==> NoPhantomAbove(st, st.log[i].dst)
  {
    hide RunLines, NoAutorun, AncestorsBefore, NoPhantomAbove, Ordinary, ParentsFirst;
    ManifestRunSound(env, lines);
    AncestorsExact(RunLines(env, FRESH_RUN, lines).run.st, i);
  }

  /** Parent before child over whole runs: after any successful sequence of dir,
      slink, file, tree and bin lines, every proper ancestor of an archived path,
      but the root, stands before it in the archive. */
  lemma {:induction false} EveryAncestorArchived(env: Env, lines: seq<Line>, i: nat)
    requires SolidLines(lines)
    requires RunLines(env, FRESH_RUN, lines).out.Ok?
    requires var log := RunLines(env, FRESH_RUN, lines).run.st.log; i < |log| && Ordinary(log[i].dst)
    ensures AncestorsBefore(RunLines(env, FRESH_RUN, lines).run.st, i)
  {
    hide RunLines, Archived, Ordinary, AncestorsBefore, SolidLines, NoAutorun;
    SolidNoAutorun(lines);
    RunAncestorsExact(env, lines, i);
    RunSolid(env, FRESH_RUN, lines);
  }

  // ---- a manifest that breaks it ------------------------------------------

  function FilteredPath(): Path { Path(true, [[97]]) }
  function FilteredChild(): Path { Path(true, [[97], [98]]) }

  lemma FilterNames(env: Env)
    ensures AbsName(env, Some("/a")) == Some(FilteredPath())
    ensures AbsName(env, Some("/a/b")) == Some(FilteredChild())
  {
    hide AbsName;
    var a: seq<Bytes>, b: seq<Bytes> := [[97]], [[97], [98]];
    assert b[1..] == [[98]];
    assert Encode("/a") == [47, 97] == Render(FilteredPath());
    assert Encode("/a/b") == [47, 97, 47, 98] == Render(FilteredChild());
    LiteralPath(env, FilteredPath(), "/a");
    LiteralPath(env, FilteredChild(), "/a/b");
  }

  lemma FilteredChildAccepted()
    ensures Accepted(PathCall(Render(FilteredChild()), DIR_MD))
  {
    var b: seq<Bytes> := [[97], [98]];
    assert b[1..] == [[98]];
    var p: Bytes := [47, 97, 47, 98];
    assert Render(FilteredChild()) == p;
    assert p[1..] == [97, 47, 98];
    assert StripRoot(p) == [97, 47, 98];
  }

  function FilterManifest(): seq<Line> { [["filter", "/a"], ["dir", "/a/b"]] }

  ghost predicate ChildAlone(r: RunResult) {
    && r.out.Ok? && |r.run.st.log| == 1 && r.run.st.log[0].dst == FilteredChild()
    && Up(FilteredChild(), 1) == FilteredPath() && Phantom(r.run.st, FilteredPath())
    && !AncestorsBefore(r.run.st, 0)
  }

  /** `filter /a` and then `dir /a/b`: on every host the child is archived alone. */
  lemma {:induction false} FilterBreaksParents(env: Env)
    ensures ChildAlone(RunLines(env, FRESH_RUN, FilterManifest()))
  {
    hide AbsName, Accepted, Render, Encode, RunLines, AncestorsBefore, Phantom;
    FilterNames(env);
    FilteredChildAccepted();
    var lines := FilterManifest();
    assert lines[0][1..] == ["/a"] && lines[1][1..] == ["/a/b"];
    var st := See(FRESH_RUN.st, FilteredPath());
    var r1 := FRESH_RUN.(st := st);
    assert LineRun(env, FRESH_RUN, lines[0]) == RunResult(r1, Ok);
    assert FilteredChild().comps[..1] == FilteredPath().comps;
    assert Parent(FilteredChild()) == Some(FilteredPath());
    assert Dirs(st, Some(FilteredPath()), DIR_MD) == Result(st, Ok);
    var e := LogEntry(FilteredChild(), PathCall(Render(FilteredChild()), DIR_MD), Mocked);
    var end := See(st.(log := [e]), FilteredChild());
    assert LineRun(env, r1, lines[1]) == RunResult(r1.(st := end), Ok);
    TwoLines(env, FRESH_RUN, lines);
    AloneInLog(end, e);
  }

  lemma AloneInLog(st: State, e: LogEntry)
    requires st.log == [e] && e.dst == FilteredChild() && FilteredPath() in st.seen
    ensures Up(FilteredChild(), 1) == FilteredPath() && Phantom(st, FilteredPath()) && !AncestorsBefore(st, 0)
  {
    assert FilteredChild().comps[..1] == FilteredPath().comps;
    assert !Archived(st.log, 0, Up(FilteredChild(), 1));
  }
}
