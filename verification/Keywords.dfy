/** Which keyword of a manifest line does what (src/bin/rapido-cut.rs): for each one, what
    the archive gains, built from the names on the line and from the host. */
module Keywords {
  import opened Strings
  import opened Newc
  import opened Cpio
  import opened HostFs
  import opened Numbers
  import opened Gather
  import opened GatherOnce
  import opened ElfWorklist
  import opened TreeWorklist
  import opened TreeListing
  import opened KmodGather
  import opened Manifest
  import opened ManifestLines
  import opened Fidelity

  /** Only the state of the archive changed. */
  predicate SameCounters(a: Run, b: Run) { b == a.(st := b.st) }

  /** A new path gains the entry of `call`; a seen one gains nothing. */
  ghost predicate Gains(a: Run, b: Run, p: Path, call: Call, origin: Origin) {
    SameCounters(a, b) && if p in a.st.seen then b == a else Adds(a.st, b.st, LogEntry(p, call, origin))
  }

  // ---- names made up on the line ------------------------------------------

  lemma {:induction false} DirKeyword(env: Env, run: Run, a: string)
    requires LineRun(env, run, ["dir", a]).out.Ok?
    ensures var p := AbsName(env, Some(a));
            && p.Some?
            && Gains(run, LineRun(env, run, ["dir", a]).run, p.value,
                     PathCall(Render(p.value), Md(1, 0x4000 + 493, 0, 0, 0, 0, 0, 0)), Mocked)
  {
    hide AbsName, DirLine, Adds, Render, SlinkLine, FileLine, BinLine, KmodLine, TreeLine, FilterLine, AutorunLine;
    assert ["dir", a][1..] == [a];
    DirLineAdds(env, run.st, [a]);
  }

  lemma {:induction false} SlinkKeyword(env: Env, run: Run, a: string, b: string)
    requires LineRun(env, run, ["slink", a, b]).out.Ok?
    ensures var p, target := AbsName(env, Some(a)), NameSub(env, Some(b));
            && p.Some? && (p.value !in run.st.seen ==> target.Some?)
            && (target.Some? ==> Gains(run, LineRun(env, run, ["slink", a, b]).run, p.value,
                                       LinkCall(Render(p.value), Md(1, 0xA000 + 511, 0, 0, 0, 0, 0, 0), target.value), Mocked))
  {
    hide AbsName, NameSub, SlinkLine, Adds, Render, DirLine, FileLine, BinLine, KmodLine, TreeLine, FilterLine, AutorunLine;
    assert ["slink", a, b][1..] == [a, b];
    SlinkLineAdds(env, run.st, [a, b]);
  }

  lemma {:induction false} EmptyFileKeyword(env: Env, run: Run, a: string)
    requires LineRun(env, run, ["file", a]).out.Ok?
    ensures var p := AbsName(env, Some(a));
            && p.Some?
            && Gains(run, LineRun(env, run, ["file", a]).run, p.value,
                     PathCall(Render(p.value), Md(1, 0x8000 + 493, 0, 0, 0, 0, 0, 0)), Mocked)
  {
    hide AbsName, FileLine, Adds, Render, DirLine, SlinkLine, BinLine, KmodLine, TreeLine, FilterLine, AutorunLine;
    assert ["file", a][1..] == [a];
    FileLineAdds(env, run.st, [a]);
  }

  /** What opening a path leads to: a symlink leads to its canonical target. */
  function Opened(fs: Fs, p: Path): Option<Path> {
    if p !in fs.nodes then None
    else if fs.nodes[p].stat.mode / 4096 % 16 != 10 then Some(p)
    else if fs.nodes[p].canon.Some? && fs.nodes[p].canon.value in fs.nodes then fs.nodes[p].canon
    else None
  }

  lemma OpenedIs(fs: Fs, p: Path)
    ensures OpenNode(fs, p) == if Opened(fs, p).Some? then Some(fs.nodes[Opened(fs, p).value]) else None
  {
  }

  /** `file` with a source: the contents and the metadata of the file that opening the
      source leads to. */
  lemma {:induction false} FileKeyword(env: Env, run: Run, a: string, b: string)
    requires LineRun(env, run, ["file", a, b]).out.Ok?
    ensures var p := AbsName(env, Some(a));
            && p.Some?
            && var r := LineRun(env, run, ["file", a, b]).run;
               if p.value in run.st.seen then r == run
               else
                 var src := NameSub(env, Some(b));
                 && src.Some? && Opened(env.fs, ParsePath(src.value)).Some?
                 && var node := env.fs.nodes[Opened(env.fs, ParsePath(src.value)).value];
                 && exists md :: ShowsStat(md, node.stat)
                      && Gains(run, r, p.value, FileCall(Render(p.value), md, node.content), Copied(ParsePath(src.value)))
  {
    hide AbsName, NameSub, FileLine, Adds, Render, OpenNode, MdFrom, ParsePath, Opened, ShowsStat, LineRun;
    FileRuns(env, run, a, b);
    FileLineAdds(env, run.st, [a, b]);
    var p := AbsName(env, Some(a)).value;
    if p !in run.st.seen {
      var src := ParsePath(NameSub(env, Some(b)).value);
      OpenedIs(env.fs, src);
      var node := OpenNode(env.fs, src).value;
      var md := MdFrom(CUT_PROPS, node.stat).value;
      CutMd(node.stat, md);
      assert Gains(run, LineRun(env, run, ["file", a, b]).run, p, FileCall(Render(p), md, node.content), Copied(src));
    }
  }

  lemma FileRuns(env: Env, run: Run, a: string, b: string)
    ensures LineRun(env, run, ["file", a, b]) == Lift(run, FileLine(env, run.st, [a, b]))
  {
    hide FileLine, DirLine, SlinkLine, BinLine, KmodLine, TreeLine, FilterLine, AutorunLine;
    assert ["file", a, b][1..] == [a, b];
  }

  lemma CutMd(s: Stat, md: Md)
    requires MdFrom(CUT_PROPS, s) == Some(md)
    ensures ShowsStat(md, s)
  {
  }

  /** `filter` only marks its path as seen. */
  lemma {:induction false} FilterKeyword(env: Env, run: Run, a: string)
    requires AbsName(env, Some(a)).Some?
    ensures LineRun(env, run, ["filter", a]) ==
            RunResult(run.(st := run.st.(seen := run.st.seen + {AbsName(env, Some(a)).value})), Ok)
  {
    hide AbsName, DirLine, SlinkLine, FileLine, BinLine, KmodLine, TreeLine, AutorunLine;
    assert ["filter", a][1..] == [a];
  }

  // ---- trees and binaries -------------------------------------------------

  /** `tree`: the parents of the first name, then the listing of the tree at the second. */
  lemma {:induction false} TreeKeyword(env: Env, run: Run, a: string, b: string)
    requires ProperDirs(env.fs) && LineRun(env, run, ["tree", a, b]).out.Ok?
    ensures var dst, src := AbsName(env, Some(a)), NameSub(env, Some(b));
            && dst.Some? && src.Some?
            && var r := LineRun(env, run, ["tree", a, b]).run;
               var t := Tree(env.fs, ParsePath(src.value), dst.value, run.st.seen);
            && SameCounters(run, r) && t.out.Ok?
            && exists mid :: ParentsOnly(run.st, mid) && r.st.log == mid.log + t.entries
  {
    hide AbsName, NameSub, TreeRun, Tree, Dirs, MdFrom, ParsePath, DirLine, SlinkLine, FileLine, BinLine, KmodLine, FilterLine, AutorunLine;
    assert ["tree", a, b][1..] == [a, b];
    var dst, src := AbsName(env, Some(a)).value, ParsePath(NameSub(env, Some(b)).value);
    var r := LineRun(env, run, ["tree", a, b]).run;
    assert TreeRun(env.fs, src, dst, run.st).out.Ok? && r.st == TreeRun(env.fs, src, dst, run.st).st;
    TreeRunLists(env.fs, src, dst, run.st);
    var t := Tree(env.fs, src, dst, run.st.seen);
    if src !in env.fs.nodes || MdFrom(CUT_PROPS, env.fs.nodes[src].stat).None? || dst in run.st.seen {
      assert r.st.log == run.st.log + t.entries;
      assert ParentsOnly(run.st, run.st);
    } else {
      var md := MdFrom(CUT_PROPS, env.fs.nodes[src].stat).value;
      DirsAdd(run.st, dst, md);
      assert ParentsOnly(run.st, Dirs(run.st, Parent(dst), md).st);
    }
  }

  /** Nothing but mocked directories in between. */
  ghost predicate ParentsOnly(a: State, b: State) {
    a.log <= b.log && forall i :: |a.log| <= i < |b.log| ==> ManifestLines.IsDir(b.log[i])
  }

  /** An entry for the host path `p`, showing its node. */
  ghost predicate HasBinary(fs: Fs, a: State, b: State, p: Path) {
    exists i :: |a.log| <= i < |b.log| && b.log[i].dst == p && b.log[i].origin == Scanned(p, false) && FromHost(fs, b.log[i])
  }

  lemma {:induction false} FirstRoundArchives(fs: Fs, st: State, ent: Ent, p: Path)
    requires Locate(fs, ent) == Some(p) && !IsLib(ent) && !ent.NamedDst? && p !in st.seen && !Dangling(fs.nodes[p])
    requires ElfStep(fs, st, ent).out.Ok?
    ensures var log := ElfStep(fs, st, ent).st.log;
            st.log <= log && exists i :: |st.log| <= i < |log| && log[i].dst == p && log[i].origin == Scanned(p, false)
  {
    hide Locate, Dirs, Accepted, Render, ElfDeps, Sort, Children, Executable, MdFrom;
    var node := fs.nodes[p];
    var md := MdFrom(CUT_PROPS, node.stat).value;
    CutMd(node.stat, md);
    var dirs := Dirs(st, Parent(p), md);
    DirsAdd(st, p, md);
    var log := ElfStep(fs, st, ent).st.log;
    assert log[|dirs.st.log|].dst == p;
  }

  lemma {:induction false} ElfsFirst(fs: Fs, st: State, ent: Ent)
    ensures var r := ElfStep(fs, st, ent);
            Elfs(fs, [ent], st) == if r.out.Err? then Result(r.st, r.out) else Elfs(fs, r.push, r.st)
  {
    hide ElfStep, Unseen;
    assert [ent][..0] == [];
    assert [] + ElfStep(fs, st, ent).push == ElfStep(fs, st, ent).push;
  }

  lemma {:induction false} BinaryArchived(fs: Fs, st: State, ent: Ent, p: Path)
    requires Locate(fs, ent) == Some(p) && (ent.Named? || ent.NamedTry?) && Elfs(fs, [ent], st).out.Ok?
    ensures p in st.seen ==> Elfs(fs, [ent], st).st == st
    ensures p !in st.seen && !Dangling(fs.nodes[p]) ==> HasBinary(fs, st, Elfs(fs, [ent], st).st, p)
  {
    hide Locate, ElfArchive, MdFrom, Elfs, FromHost, Ext, Dangling;
    ElfsFirst(fs, st, ent);
    var r := ElfStep(fs, st, ent);
    if p in st.seen {
      assert r.push == [] && r.st == st;
      NothingToDo(fs, st);
    } else if !Dangling(fs.nodes[p]) {
      FirstRoundArchives(fs, st, ent, p);
      var i :| |st.log| <= i < |r.st.log| && r.st.log[i].dst == p && r.st.log[i].origin == Scanned(p, false);
      ElfsExt(fs, r.push, r.st);
      var end := Elfs(fs, [ent], st).st;
      ExtLog(r.st, end);
      ElfsFaithful(fs, [ent], st);
      assert end.log[i] == r.st.log[i];
    }
  }

  lemma NothingToDo(fs: Fs, st: State)
    ensures Elfs(fs, [], st) == Result(st, Ok)
  {
  }

  /** `bin` and `try-bin`: a file that is found is archived under its own path unless it
      was seen; a missing one is an error for `bin` and nothing for `try-bin`. */
  lemma {:induction false} BinKeyword(env: Env, run: Run, a: string, try_: bool)
    requires NameSub(env, Some(a)).Some?
    ensures var p := Locate(env.fs, Named(NameSub(env, Some(a)).value));
            var r := LineRun(env, run, [if try_ then "try-bin" else "bin", a]);
            && (p.None? ==> r == RunResult(run, if try_ then Ok else Err(NotFound)))
            && (p.Some? && r.out.Ok? ==>
                  && SameCounters(run, r.run)
                  && (p.value in run.st.seen ==> r.run == run)
                  && (p.value !in run.st.seen && !Dangling(env.fs.nodes[p.value]) ==>
                        HasBinary(env.fs, run.st, r.run.st, p.value)))
  {
    hide NameSub, Locate, Elfs, HasBinary, ElfArchive, Dangling, DirLine, SlinkLine, FileLine, KmodLine, TreeLine, FilterLine, AutorunLine;
    var line := [if try_ then "try-bin" else "bin", a];
    assert line[1..] == [a];
    var name := NameSub(env, Some(a)).value;
    var ent := if try_ then NamedTry(name) else Named(name);
    SameLookup(env.fs, name);
    var p := Locate(env.fs, ent);
    assert LineRun(env, run, line) == Lift(run, Elfs(env.fs, [ent], run.st));
    if p.None? {
      ElfsFirst(env.fs, run.st, ent);
      NothingToDo(env.fs, run.st);
    } else if Elfs(env.fs, [ent], run.st).out.Ok? {
      BinaryArchived(env.fs, run.st, ent, p.value);
    }
  }

  lemma SameLookup(fs: Fs, name: Bytes)
    ensures Locate(fs, NamedTry(name)) == Locate(fs, Named(name))
  {
    hide StatName, BinPaths;
  }

  // ---- modules, autorun, everything else ----------------------------------

  /** `kmod` and `try-kmod` request the module they name; only `try-kmod` forgives a
      missing one. */
  lemma {:induction false} KmodKeyword(env: Env, run: Run, a: string, try_: bool)
    requires env.kmods.Some?
    ensures var k := env.kmods.value;
            var init := if run.kmodsReady then Result(run.st, Ok) else KmodInit(env.fs, k, run.st);
            var r := LineRun(env, run, [if try_ then "try-kmod" else "kmod", a]);
            if init.out.Err? then r == RunResult(run.(st := init.st), Err(Other))
            else
              var asked := KmodRequest(env.fs, k, init.st, Encode(a));
              && r.run == run.(st := asked.st, kmodsReady := true)
              && r.out == if try_ && asked.out == Err(NotFound) then Ok else asked.out
  {
    hide KmodInit, KmodRequest, Encode, DirLine, SlinkLine, FileLine, BinLine, TreeLine, FilterLine, AutorunLine;
    var line := [if try_ then "try-kmod" else "kmod", a];
    assert line[1..] == [a];
  }

  /** `autorun` with one location: its file goes to the next number, behind the directory
      if it is the first of the run. */
  lemma {:induction false} AutorunKeyword(env: Env, run: Run, loc: string)
    requires LineRun(env, run, ["autorun", loc]).out.Ok?
    ensures var src := AbsName(env, Some(loc));
            && src.Some? && src.value.comps != [] && Opened(env.fs, src.value).Some?
            && var r := LineRun(env, run, ["autorun", loc]).run;
               var node := env.fs.nodes[Opened(env.fs, src.value).value];
               var dst := Path(true, [Encode("rapido_autorun"), Decimal3(run.autorun) + [45] + src.value.comps[|src.value.comps| - 1]]);
            && r.autorun == run.autorun + 1 && r.kmodsReady == run.kmodsReady
            && |r.st.log| == |run.st.log| + (if run.autorun == 0 then 2 else 1) && run.st.log <= r.st.log
            && (run.autorun == 0 ==>
                  && r.st.log[|run.st.log|].dst == AutorunDir()
                  && r.st.log[|run.st.log|].call == PathCall(Render(AutorunDir()), Md(1, 0x4000 + 493, 0, 0, 0, 0, 0, 0)))
            && var e := r.st.log[|r.st.log| - 1];
               e.dst == dst && e.call.FileCall? && ShowsStat(e.call.md, node.stat) && e.call.data == node.content
  {
    hide AbsName, OpenNode, MdFrom, Accepted, Render, AutorunDir, AutorunDst, Opened, ShowsStat, Decimal3, Encode, DirLine, SlinkLine, FileLine, BinLine, KmodLine, TreeLine, FilterLine;
    assert ["autorun", loc][1..] == [loc] && [loc][1..] == [];
    var one := AutorunOne(env, run, loc);
    assert AutorunAll(env, run, [loc]) == if one.out.Err? then one else AutorunAll(env, one.run, []);
    assert AutorunAll(env, one.run, []) == RunResult(one.run, Ok);
    var src := AbsName(env, Some(loc)).value;
    OpenedIs(env.fs, src);
    var node := OpenNode(env.fs, src).value;
    CutMd(node.stat, MdFrom(CUT_PROPS, node.stat).value);
    NumberedPath(run.autorun, src.comps[|src.comps| - 1]);
  }

  lemma NumberedPath(idx: nat, name: Bytes)
    ensures AutorunDst(idx, name) == Path(true, [Encode("rapido_autorun"), Decimal3(idx) + [45] + name])
  {
    hide Encode, Decimal3;
  }

  /** Blank lines and comments do nothing. */
  lemma NoKeyword(env: Env, run: Run, line: Line)
    requires line == [] || (line[0] != "" && line[0][0] == '#')
    ensures LineRun(env, run, line) == RunResult(run, Ok)
  {
  }

  /** How many parameters a keyword takes. */
  function Arity(etype: string): Option<nat> {
    match etype
    case "slink" => Some(2)
    case "file" => Some(2)
    case "tree" => Some(2)
    case "dir" => Some(1)
    case "filter" => Some(1)
    case "bin" => Some(1)
    case "try-bin" => Some(1)
    case "kmod" => Some(1)
    case "try-kmod" => Some(1)
    case _ => None
  }

  predicate TakesTooMany(line: Line) {
    && line != [] && line[0] != "" && line[0][0] != '#' && line[0] != "autorun"
    && (Arity(line[0]).Some? ==> |line| - 1 > Arity(line[0]).value)
  }

  /** One parameter too many is an error, and so is every other word in front but
      `autorun`. */
  lemma {:induction false} TooMany(env: Env, run: Run, line: Line)
    requires TakesTooMany(line)
    ensures LineRun(env, run, line).out.Err?
    ensures Arity(line[0]).None? ==> LineRun(env, run, line).run == run
  {
    hide DirLine, SlinkLine, FileLine, BinLine, KmodLine, TreeLine, FilterLine, AutorunLine;
  }

  /** A name that is needed and missing is an error. */
  lemma {:induction false} TooFew(env: Env, run: Run, etype: string)
    requires Arity(etype).Some? || etype == "autorun"
    ensures LineRun(env, run, [etype]) == RunResult(run, Err(Other))
  {
    assert [etype][1..] == [];
  }
}
