/** Over whole runs of rapido-cut (src/bin/rapido-cut.rs) no library that an archived
    ELF file needs and no target of an archived symlink is left unresolved. */
module Libraries {
  import opened Strings
  import opened Newc
  import opened Cpio
  import opened ArchiveName
  import opened HostFs
  import opened Gather
  import opened GatherOnce
  import opened ElfWorklist
  import opened KmodGather
  import opened Manifest

  // ---- lines that scan nothing --------------------------------------------

  lemma {:induction false} ServedKept(fs: Fs, a: State, b: State)
    requires Served(fs, a, []) && a.seen <= b.seen && Calm(a, b)
    ensures Served(fs, b, [])
  {
    hide EntryServed, PendingLib, PendingTarget, Done;
    var ent := NamedTry([]);
    assert Moves(fs, a, ent, b, [], []);
    PendingMoves(fs, a, ent, b, [], []);
    forall i | 0 <= i < |b.log| ensures EntryServed(fs, b, [], b.log[i]) {
      if i < |a.log| {
        assert b.log[i] == a.log[i];
        EntryMoves(fs, a, ent, b, [], [], a.log[i]);
      } else {
        UnscannedServed(fs, b, b.log[i]);
      }
    }
  }

  lemma UnscannedServed(fs: Fs, st: State, e: LogEntry)
    requires !e.origin.Scanned?
    ensures EntryServed(fs, st, [], e)
  {
  }

  /** More seen, nothing scanned. */
  ghost predicate Quiet(a: State, b: State) { a.seen <= b.seen && Calm(a, b) }

  lemma QuietTrans(a: State, b: State, c: State)
    requires Quiet(a, b) && Quiet(b, c)
    ensures Quiet(a, c)
  {
    hide Calm;
    CalmTrans(a, b, c);
  }

  lemma SoundIsQuiet(a: State, b: State)
    requires Sound(a, b)
    ensures Quiet(a, b)
  {
    hide Ext, Calm;
    ExtSeen(a, b);
  }

  lemma {:induction false} AutorunOneQuiet(env: Env, run: Run, loc: string)
    ensures Quiet(run.st, AutorunOne(env, run, loc).run.st)
  {
    hide AbsName, OpenNode, MdFrom, Accepted, Render, AutorunDir, AutorunDst;
  }

  lemma {:induction false} AutorunQuiet(env: Env, run: Run, locs: seq<string>)
    ensures Quiet(run.st, AutorunAll(env, run, locs).run.st)
    decreases |locs|
  {
    hide Quiet, AutorunOne;
    assert Quiet(run.st, run.st) by { QuietSelf(run.st); }
    if locs != [] {
      var r := AutorunOne(env, run, locs[0]);
      AutorunOneQuiet(env, run, locs[0]);
      AutorunQuiet(env, r.run, locs[1..]);
      QuietTrans(run.st, r.run.st, AutorunAll(env, r.run, locs[1..]).run.st);
    }
  }

  lemma QuietSelf(st: State)
    ensures Quiet(st, st)
  {
  }

  // ---- every line ---------------------------------------------------------

  lemma {:induction false} BinLineServes(env: Env, st: State, args: seq<string>, try_: bool)
    requires Served(env.fs, st, []) && BinLine(env, st, args, try_).out.Ok?
    ensures Served(env.fs, BinLine(env, st, args, try_).st, [])
  {
    hide Served, NameSub, Elfs;
    var src := NameSub(env, Arg(args, 0)).value;
    var stack := [if try_ then NamedTry(src) else Named(src)];
    ServedMore(env.fs, st, stack);
    ElfsServed(env.fs, stack, st);
  }

  lemma {:induction false} ServedMore(fs: Fs, st: State, stack: seq<Ent>)
    requires Served(fs, st, [])
    ensures Served(fs, st, stack)
  {
    hide EntryServed, PendingLib, PendingTarget;
    MorePending(fs, st, [], stack);
    forall i | 0 <= i < |st.log| ensures EntryServed(fs, st, stack, st.log[i]) {
      MoreServed(fs, st, [], stack, st.log[i]);
    }
  }

  lemma {:induction false} OtherLinesQuiet(env: Env, run: Run, etype: string, args: seq<string>)
    requires etype != "bin" && etype != "try-bin"
    ensures Quiet(run.st, Directive(env, run, etype, args).run.st)
  {
    hide Quiet, Sound, DirLine, SlinkLine, FileLine, BinLine, KmodLine, TreeLine, FilterLine, AutorunAll;
    SoundSelf(run.st);
    SimpleLinesSound(env, run.st, args);
    FileLineSound(env, run.st, args);
    KmodLineSound(env, run, args, false);
    KmodLineSound(env, run, args, true);
    AutorunQuiet(env, run, args);
    QuietSelf(run.st);
    var r := Directive(env, run, etype, args);
    if Sound(run.st, r.run.st) { SoundIsQuiet(run.st, r.run.st); }
  }

  lemma {:induction false} DirectiveServes(env: Env, run: Run, etype: string, args: seq<string>)
    requires Served(env.fs, run.st, []) && Directive(env, run, etype, args).out.Ok?
    ensures Served(env.fs, Directive(env, run, etype, args).run.st, [])
  {
    hide Served, DirLine, SlinkLine, FileLine, BinLine, KmodLine, TreeLine, FilterLine, AutorunLine, Calm;
    if etype == "bin" {
      BinLineServes(env, run.st, args, false);
    } else if etype == "try-bin" {
      BinLineServes(env, run.st, args, true);
    } else {
      OtherLinesQuiet(env, run, etype, args);
      ServedKept(env.fs, run.st, Directive(env, run, etype, args).run.st);
    }
  }

  /** Whole runs of any lines, `autorun` included: what is known is resolved between
      two lines. */
  lemma {:induction false} RunServes(env: Env, run: Run, lines: seq<Line>)
    requires Served(env.fs, run.st, []) && RunLines(env, run, lines).out.Ok?
    ensures Served(env.fs, RunLines(env, run, lines).run.st, [])
    decreases |lines|
  {
    hide Served, Directive;
    if lines != [] {
      var line := lines[0];
      if !IsBlank(line) { DirectiveServes(env, run, line[0], line[1..]); }
      RunServes(env, LineRun(env, run, line).run, lines[1..]);
    }
  }

  // ---- what a finished run amounts to -------------------------------------

  /** Symlinks lead somewhere, and canonical targets are real absolute paths. */
  predicate Tidy(fs: Fs) {
    forall p :: p in fs.nodes ==>
      && !Dangling(fs.nodes[p])
      && (fs.nodes[p].canon.Some? ==> fs.nodes[p].canon.value.absolute && CompsOk(fs.nodes[p].canon.value.comps))
  }

  /** The lookup made for the first archived file that needs `s`, in the search
      directories of that file, found a path that has been seen; if that file cannot
      be read to its end, nothing looks for `s`. */
  ghost predicate LibSeen(fs: Fs, st: State, s: Bytes) {
    exists k: nat :: FirstAsks(fs, st.log, k, s) && FoundFor(fs, st, st.log[k], s)
  }

  predicate FoundFor(fs: Fs, st: State, e: LogEntry, s: Bytes)
    requires Asks(fs, e, s)
  {
    AsksWhole(fs, e, s) ==> Found(fs, st, LookupOf(fs, e, s))
  }

  predicate Found(fs: Fs, st: State, ent: Ent) { Locate(fs, ent).Some? && Locate(fs, ent).value in st.seen }

  /** After a successful run over any manifest lines, with malformed ELF files or not,
      every needed library of every archived ELF file has been looked up and found, but
      for those first met in a file that cannot be read to its end, and every archived
      symlink has its canonical target seen. */
  lemma {:induction false} RunResolves(env: Env, lines: seq<Line>, i: nat)
    requires Tidy(env.fs) && RunLines(env, FRESH_RUN, lines).out.Ok?
    requires i < |RunLines(env, FRESH_RUN, lines).run.st.log|
    requires RunLines(env, FRESH_RUN, lines).run.st.log[i].origin.Scanned?
    ensures var st := RunLines(env, FRESH_RUN, lines).run.st;
            && st.log[i].origin.src in env.fs.nodes
            && (forall s :: Asks(env.fs, st.log[i], s) ==> LibSeen(env.fs, st, s))
            && var node := env.fs.nodes[st.log[i].origin.src];
            && (IsLink(node) ==> node.canon.Some? && node.canon.value in st.seen)
            && (node.stat.mode / 4096 % 16 == 4 ==> forall c :: c in node.children ==> ChildPath(st.log[i].origin.src, c) in st.seen)
  {
    hide RunLines, Asks, Locate, Render, ReadsNeeded;
    var st := RunLines(env, FRESH_RUN, lines).run.st;
    RunServes(env, FRESH_RUN, lines);
    ServedKnown(env.fs, st, []);
    assert EntryServed(env.fs, st, [], st.log[i]);
    forall s | Asks(env.fs, st.log[i], s) ensures LibSeen(env.fs, st, s) { LibIsSeen(env.fs, st, s); }
    var node := env.fs.nodes[st.log[i].origin.src];
    if IsLink(node) { TargetIsSeen(env.fs, st, node.canon.value); }
    if IsDirectory(node) { ChildrenSeen(env.fs, st, st.log[i].origin.src, node); }
  }

  lemma LibIsSeen(fs: Fs, st: State, s: Bytes)
    requires Tidy(fs) && PendingLib(fs, st, [], s)
    ensures LibSeen(fs, st, s)
  {
    hide Locate, Asks, LibEnt;
    var k: nat :| FirstAsks(fs, st.log, k, s) && LookedFor(fs, st, [], st.log[k], s);
    assert FoundFor(fs, st, st.log[k], s);
  }

  lemma ChildrenSeen(fs: Fs, st: State, src: Path, node: Node)
    requires Tidy(fs) && ChildrenHandled(fs, st, [], src, node)
    ensures forall c :: c in node.children ==> ChildPath(src, c) in st.seen
  {
    forall c | c in node.children ensures ChildPath(src, c) in st.seen {
      var ent := PathEnt(ChildPath(src, c));
      assert Handled(fs, st, [], ent);
      assert Locate(fs, ent).Some? ==> Locate(fs, ent).value == ChildPath(src, c);
    }
  }

  lemma TargetIsSeen(fs: Fs, st: State, t: Path)
    requires Tidy(fs) && PendingTarget(fs, st, [], t) && t.absolute && CompsOk(t.comps)
    ensures t in st.seen
  {
    hide Locate, Render;
    var ent :| ForTarget(ent, t) && Handled(fs, st, [], ent);
    LocateTarget(fs, t);
    TargetIsPath(fs, t);
  }

  /** A rendered path contains a separator, so it is never searched for. */
  lemma TargetIsPath(fs: Fs, t: Path)
    ensures Locate(fs, Lib(Render(t))) == Locate(fs, Named(Render(t)))
  {
    hide Render, BinPaths, LibPaths, ManifestPaths, Search, EncodeAll;
    RenderHasSlash(t);
  }

  lemma RenderHasSlash(t: Path)
    ensures SLASH in Render(t)
  {
    if t.comps != [] { assert Render(t)[0] == SLASH; }
  }

  lemma LocateTarget(fs: Fs, t: Path)
    requires t.absolute && CompsOk(t.comps)
    ensures Locate(fs, Named(Render(t))) == if t in fs.nodes then Some(t) else None
  {
    AbsoluteRender(fs.cwd, t);
  }

  // ---- where the promise ends ---------------------------------------------

  /** An ELF file that cannot be read to the end leaves names seen that nobody looks
      for: a later file that needs one of them does not bring it in. */
  lemma {:induction false} MalformedElfLosesNames(libs: set<Bytes>, s: Bytes, dirs: seq<Bytes>, more: seq<Bytes>)
    requires s !in libs
    ensures var d := ElfDeps(libs, Elf(dirs, [Some(s), None]));
            && d.ents == [] && s in d.libs
            && ElfDeps(d.libs, Elf(more, [Some(s)])).ents == []
  {
    var needed: seq<Option<Bytes>> := [Some(s), None];
    assert needed[1..] == [None];
    assert NeededDeps(libs + {s}, [None], dirs) == Deps(libs + {s}, [], false);
    var again: seq<Option<Bytes>> := [Some(s)];
    assert again[1..] == [];
    var d := ElfDeps(libs, Elf(dirs, needed));
    assert NeededDeps(d.libs, again, more) == NeededDeps(d.libs, [], more) == Deps(d.libs, [], true);
  }

  lemma {:induction false} ScannedNames(libs: set<Bytes>, needed: seq<Option<Bytes>>, dirs: seq<Bytes>, k: nat)
    requires k <= |needed| && (k < |needed| ==> needed[k].None?)
    requires forall i :: 0 <= i < k ==> needed[i].Some?
    ensures var d := NeededDeps(libs, needed, dirs);
            && (d.ok <==> k == |needed|)
            && (forall s :: s in d.libs <==> s in libs || exists i :: 0 <= i < k && needed[i].value == s)
    decreases |needed|
  {
    if k > 0 {
      var more := if needed[0].value in libs then libs else libs + {needed[0].value};
      ScannedNames(more, needed[1..], dirs, k - 1);
      var d := NeededDeps(libs, needed, dirs);
      forall s ensures s in d.libs <==> s in libs || exists i :: 0 <= i < k && needed[i].value == s {
        if i :| 0 <= i < k && needed[i].value == s {
          if i > 0 { assert needed[1..][i - 1].value == s; }
        }
      }
    }
  }

  /** A scan looks for every name it enters if and only if it reaches the end of the
      file or meets no new name before the unreadable one, at `k`. */
  lemma {:induction false} ScanExact(libs: set<Bytes>, needed: seq<Option<Bytes>>, dirs: seq<Bytes>, k: nat)
    requires k <= |needed| && (k < |needed| ==> needed[k].None?)
    requires forall i :: 0 <= i < k ==> needed[i].Some?
    ensures var d := ElfDeps(libs, Elf(dirs, needed));
            (forall s :: s in d.libs && s !in libs ==> LibEnt(s, dirs) in d.ents)
            <==> k == |needed| || forall i :: 0 <= i < k ==> needed[i].value in libs
  {
    hide NeededDeps, LibEnt;
    ScannedNames(libs, needed, dirs, k);
    NeededPush(libs, needed, dirs);
    var d := ElfDeps(libs, Elf(dirs, needed));
    if k < |needed| {
      assert d.ents == [];
      if i :| 0 <= i < k && needed[i].value !in libs { assert needed[i].value in d.libs; }
    }
  }
}
