/** From manifest to archive and back: what can be said of an initramfs before it is
    made, from the host and the manifest alone. */
module Initramfs {
  import opened Strings
  import opened Newc
  import opened Padding
  import opened ArchiveName
  import opened Cpio
  import opened Walker
  import opened HostFs
  import opened Numbers
  import opened Gather
  import opened Manifest
  import opened ManifestLines
  import opened Autorun
  import opened CutArchive
  import opened Fidelity
  import opened CleanNames

  // ---- nothing twice ------------------------------------------------------

  predicate NotAutorunName(c: Bytes) { c != AutorunDir().comps[0] }

  /** Whatever the `autorun` lines, no destination is archived twice if "rapido_autorun"
      occurs in no host path, directory, module path or name of another line. */
  lemma {:induction false} NothingRepeats(env: Env, lines: seq<Line>)
    requires CleanEnv(NotAutorunName, env) && CleanLines(NotAutorunName, env, lines, false)
    ensures NoRepeat(RunLines(env, FRESH_RUN, lines).run.st.log)
  {
    hide *;
    RunClean(NotAutorunName, false, env, FRESH_RUN, lines);
    FreshOrderly();
    RunOrderly(env, FRESH_RUN, lines);
    CleanNoClash(RunLines(env, FRESH_RUN, lines));
  }

  lemma {:induction false} CleanNoClash(r: RunResult)
    requires Orderly(r) && CleanLog(NotAutorunName, false, FRESH_RUN.st, r.run.st)
    ensures NoRepeat(r.run.st.log)
  {
    hide *;
    OrderlyExact(r);
    if Clash(r.run.st.log) {
      var i, j := ClashAt(r.run.st.log);
      NumberedName(r, i);
      CleanEntry(r.run.st, j);
      NotUnder(r.run.st.log[j].dst);
    }
  }

  lemma ClashAt(log: seq<LogEntry>) returns (i: nat, j: nat)
    requires Clash(log)
    ensures i < |log| && j < |log| && log[i].dst == log[j].dst
    ensures ByAutorun(log[i].origin) && !ByAutorun(log[j].origin)
  {
    var k, l :| 0 <= k < |log| && 0 <= l < |log| && Clashes(log[k], log[l]);
    i, j := k, l;
  }

  lemma CleanEntry(st: State, j: nat)
    requires CleanLog(NotAutorunName, false, FRESH_RUN.st, st) && j < |st.log| && !ByAutorun(st.log[j].origin)
    ensures Clean(NotAutorunName, st.log[j].dst)
  {
    hide Clean, NotAutorunName;
  }

  lemma NumberedName(r: RunResult, i: nat)
    requires Orderly(r) && i < |r.run.st.log| && ByAutorun(r.run.st.log[i].origin)
    ensures AutorunDir().comps <= r.run.st.log[i].dst.comps
  {
    hide Decimal3, Encode;
    var e := r.run.st.log[i];
    assert NumberedAs(e, r.run.autorun);
    if e.origin.Numbered? {
      var name :| e.dst == AutorunDst(e.origin.idx, name);
    }
  }

  lemma NotUnder(p: Path)
    requires Clean(NotAutorunName, p)
    ensures !(AutorunDir().comps <= p.comps)
  {
    hide Encode;
    assert p.comps != [] ==> NotAutorunName(p.comps[0]);
  }

  // ---- a manifest that archives something twice ---------------------------

  function RepeatManifest(): seq<Line> { [["dir", "/rapido_autorun"], ["autorun", "/x"]] }

  /** `dir /rapido_autorun` and then `autorun /x`, on any host with a file at /x. */
  lemma {:induction false} RepeatsTwice(env: Env, node: Node, md: Md)
    requires OpenNode(env.fs, Path(true, [[120]])) == Some(node) && MdFrom(CUT_PROPS, node.stat) == Some(md)
    requires Accepted(FileCall(Render(AutorunDst(0, [120])), md, node.content))
    ensures var r := RunLines(env, FRESH_RUN, RepeatManifest()); r.out.Ok? && !NoRepeat(r.run.st.log)
  {
    hide RunLines, LineRun, OpenNode, MdFrom, Accepted, AutorunDst, Render, NoRepeat, AutorunDir;
    var lines := RepeatManifest();
    FirstLineArchives(env);
    var r1 := LineRun(env, FRESH_RUN, lines[0]).run;
    AutorunLineIs(env, r1, node, md);
    AutorunRepeats(env, r1, "/x", 0);
    TwoLines(env, FRESH_RUN, lines);
  }

  lemma {:induction false} FirstLineArchives(env: Env)
    ensures var r := LineRun(env, FRESH_RUN, RepeatManifest()[0]);
            r.out.Ok? && r.run.autorun == 0 && |r.run.st.log| == 1 && r.run.st.log[0].dst == AutorunDir()
  {
    hide AbsName, Accepted, Render, AutorunDir, SlinkLine, FileLine, BinLine, KmodLine, TreeLine, FilterLine, AutorunLine, Encode;
    AutorunDirName(env);
    var line := RepeatManifest()[0];
    assert line[1..] == ["/rapido_autorun"];
    var p := AutorunDir();
    DirOfRoot(p);
    assert Dirs(FRESH_RUN.st, Parent(p), DIR_MD) == Result(FRESH_RUN.st, Ok);
    var e := LogEntry(p, PathCall(Render(p), DIR_MD), Mocked);
    assert DirLine(env, FRESH_RUN.st, ["/rapido_autorun"]) == Result(See(FRESH_RUN.st.(log := [e]), p), Ok);
  }

  lemma DirOfRoot(p: Path)
    requires p == AutorunDir()
    ensures p.absolute && Parent(p) == Some(Path(true, []))
  {
    hide Encode;
    assert p.comps[..0] == [];
  }

  lemma AutorunDirName(env: Env)
    ensures AbsName(env, Some("/rapido_autorun")) == Some(AutorunDir())
    ensures Accepted(PathCall(Render(AutorunDir()), DIR_MD))
  {
    hide AbsName, Encode, Accepted;
    EncodedComp();
    AutorunDirText();
    LiteralPath(env, AutorunDir(), "/rapido_autorun");
    ShortName(Encode("rapido_autorun"));
  }

  lemma AutorunDirText()
    ensures var c := Encode("rapido_autorun");
            Encode("/rapido_autorun") == [SLASH] + c == Render(AutorunDir())
  {
    hide Encode;
    assert "/" + "rapido_autorun" == "/rapido_autorun";
    EncodeConcat("/", "rapido_autorun");
    EncodeAt("/");
    assert Encode("/") == [SLASH];
    assert AutorunDir().comps[1..] == [];
  }

  /** The letters of "rapido_autorun" are those of a component. */
  lemma EncodedComp()
    ensures var c := Encode("rapido_autorun"); |c| == 14 && c[0] == 114 && RealName(c)
  {
    hide Encode;
    EncodeAt("rapido_autorun");
  }

  lemma ShortName(c: Bytes)
    requires IsComp(c) && |c| == 14 && c[0] != DOT
    ensures Accepted(PathCall([SLASH] + c, DIR_MD))
  {
    var p: Bytes := [SLASH] + c;
    assert p[1..] == c;
    assert TrimLeft(c) == c;
    TrimRightPrefix(c);
  }

  lemma {:induction false} AutorunLineIs(env: Env, run: Run, node: Node, md: Md)
    requires OpenNode(env.fs, Path(true, [[120]])) == Some(node) && MdFrom(CUT_PROPS, node.stat) == Some(md)
    requires Accepted(FileCall(Render(AutorunDst(0, [120])), md, node.content)) && run.autorun == 0
    ensures AutorunOne(env, run, "/x").out.Ok?
    ensures LineRun(env, run, RepeatManifest()[1]) == AutorunOne(env, run, "/x")
  {
    hide AbsName, OpenNode, MdFrom, Accepted, Render, AutorunDir, AutorunDst;
    AutorunDirName(env);
    XName(env);
    var line := RepeatManifest()[1];
    assert line[1..] == ["/x"] && ["/x"][1..] == [];
    assert AutorunOne(env, run, "/x").out.Ok?;
    var r := AutorunOne(env, run, "/x");
    assert AutorunAll(env, r.run, []) == RunResult(r.run, Ok);
    assert AutorunAll(env, run, ["/x"]) == r;
  }

  lemma XName(env: Env)
    ensures AbsName(env, Some("/x")) == Some(Path(true, [[120]]))
  {
    hide AbsName;
    var p := Path(true, [[120]]);
    assert p.comps[1..] == [];
    assert Encode("/x") == [47, 120] == Render(p);
    LiteralPath(env, p, "/x");
  }

  // ---- what the walker lists ----------------------------------------------

  /** A component as the kernel allows it, and not the name of the trailer. */
  predicate RealName(c: Bytes) { IsComp(c) && 0 !in c && c != TRAILER }

  lemma {:induction false} RealNumberable()
    ensures Numberable(RealName)
  {
    hide Decimal3, Encode;
    AutorunComp();
    forall idx, name | RealName(name) ensures RealName(Decimal3(idx) + [45] + name) {
      Decimal3Reads(idx);
      var c := Decimal3(idx) + [45] + name;
      assert 48 <= c[0] <= 57 && TRAILER[0] == 84;
    }
  }

  lemma AutorunComp()
    ensures AllComps(RealName, AutorunDir().comps)
  {
    hide Encode;
    EncodedComp();
  }

  predicate AllReal(log: seq<LogEntry>) { forall i :: 0 <= i < |log| ==> Clean(RealName, log[i].dst) }

  lemma {:induction false} RealCompsOk(p: Path)
    requires Clean(RealName, p)
    ensures CompsOk(p.comps)
  {
    forall i | 0 <= i < |p.comps| ensures IsComp(p.comps[i]) { assert RealName(p.comps[i]); }
  }

  lemma {:induction false} TrimBytesOf(p: Bytes)
    ensures forall b :: b in TrimLeft(p) ==> b in p
    ensures forall b :: b in TrimRight(p) ==> b in p
    decreases |p|
  {
    if p != [] {
      TrimBytesOf(p[1..]);
      TrimBytesOf(p[..|p| - 1]);
    }
  }

  lemma {:induction false} StripBytesOf(p: Bytes)
    ensures forall b :: b in StripRoot(p) ==> b in p
    ensures forall b :: b in StripDot(p) ==> b in p
  {
    hide TrimLeft, TrimRight;
    if p != [] {
      TrimBytesOf(p[1..]);
      TrimBytesOf(TrimLeft(p[1..]));
    }
  }

  lemma {:induction false} JoinNoZero(comps: seq<Bytes>)
    requires AllComps(RealName, comps)
    ensures 0 !in JoinComps(comps)
    decreases |comps|
  {
    if comps != [] {
      assert RealName(comps[0]);
      JoinNoZero(comps[1..]);
    }
  }

  lemma {:induction false} EntryListable(e: LogEntry)
    requires Clean(RealName, e.dst) && e.call.path == Render(e.dst)
    ensures 0 !in Name(e.call) && Name(e.call) != TRAILER && Components(Name(e.call)) == e.dst.comps
  {
    hide StripRoot, StripDot, Components, JoinComps;
    RealCompsOk(e.dst);
    NameComponents(e);
    StripBytesOf(e.call.path);
    StripBytesOf(StripRoot(e.call.path));
    JoinNoZero(e.dst.comps);
    TrailerComponents();
    assert e.dst.comps != [] ==> RealName(e.dst.comps[0]);
  }

  lemma TrailerComponents()
    ensures Components(TRAILER) == [TRAILER]
  {
    SlashFree(TRAILER, []);
    assert [] + TRAILER == TRAILER;
  }

  lemma {:induction false} LogListable(fs: Fs, log: seq<LogEntry>)
    requires AllReal(log) && forall i :: 0 <= i < |log| ==> FromHost(fs, log[i])
    ensures Listable(Calls(log))
  {
    hide Clean, Accepted, Name, Render, Reflects, CopyOf;
    forall i | 0 <= i < |log|
      ensures Accepted(Calls(log)[i]) && 0 !in Name(Calls(log)[i]) && Name(Calls(log)[i]) != TRAILER
    {
      assert FromHost(fs, log[i]);
      EntryListable(log[i]);
    }
  }

  /** The i-th walked entry is the i-th archived path, under its own components. */
  ghost predicate Lists(w: Walked, log: seq<LogEntry>) {
    && w.clean && |w.ents| == |log|
    && forall i :: 0 <= i < |log| ==> w.ents[i].name != [] && Components(NameStr(w.ents[i])) == log[i].dst.comps
  }

  /** What the walker makes of the archive of a log, with anything behind it. */
  ghost predicate ReadsBack(log: seq<LogEntry>, post: Bytes) {
    && AllAccepted(Calls(log))
    && var a := Archive(CUT_PROPS, 0, CUT_PROPS.initialIno, Calls(log));
       var w := Walk(a + (Trailer(|a|) + post), 0);
       Lists(w, log) && (NoRepeat(log) <==> Distinct(w))
  }

  lemma CutPropsReadable()
    ensures Readable(CUT_PROPS)
  {
  }

  /** The initramfs of any manifest, `autorun` included, read back: the walker lists one
      entry per archived path, in the order of archiving, under its own components, and
      no name twice if and only if no path was archived twice. All that is needed are
      names without NUL on host and in the manifest, none of them "TRAILER!!!". */
  lemma {:induction false} InitramfsReads(env: Env, lines: seq<Line>, post: Bytes)
    requires CleanEnv(RealName, env) && CleanLines(RealName, env, lines, true)
    ensures ReadsBack(RunLines(env, FRESH_RUN, lines).run.st.log, post)
  {
    hide *;
    RealNumberable();
    RunClean(RealName, true, env, FRESH_RUN, lines);
    RunFaithful(env, FRESH_RUN, lines);
    CleanLogReads(env.fs, RunLines(env, FRESH_RUN, lines).run.st, post);
  }

  lemma {:induction false} CleanLogReads(fs: Fs, st: State, post: Bytes)
    requires CleanLog(RealName, true, FRESH_RUN.st, st) && Faithful(fs, FRESH_RUN.st, st)
    ensures ReadsBack(st.log, post)
  {
    hide Archive, Trailer, Walk, Listable, AllAccepted, FromHost, Readable, Lists, Clean, Valid, Shows, Distinct, NoRepeat;
    var log := st.log;
    LogListable(fs, log);
    CutPropsReadable();
    WalkListsCalls(CUT_PROPS, Calls(log), post);
    var a := Archive(CUT_PROPS, 0, CUT_PROPS.initialIno, Calls(log));
    var w := Walk(a + (Trailer(|a|) + post), 0);
    ListsLog(fs, w, log);
    NamesDistinct(w, log);
  }

  lemma {:induction false} ListsLog(fs: Fs, w: Walked, log: seq<LogEntry>)
    requires AllReal(log) && forall i :: 0 <= i < |log| ==> FromHost(fs, log[i])
    requires w.clean && |w.ents| == |log|
    requires forall i :: 0 <= i < |log| ==> Valid(Calls(log)[i]) && Shows(w.ents[i], Calls(log)[i])
    ensures Lists(w, log)
  {
    hide Clean, Accepted, Name, Render, Reflects, CopyOf, Valid, NameStr, Components;
    forall i | 0 <= i < |log|
      ensures w.ents[i].name != [] && Components(NameStr(w.ents[i])) == log[i].dst.comps
    {
      assert Shows(w.ents[i], Calls(log)[i]);
      assert FromHost(fs, log[i]);
      EntryListable(log[i]);
    }
  }

  /** No two entries name the same components. */
  ghost predicate Distinct(w: Walked) {
    forall i, j :: 0 <= i < j < |w.ents| && w.ents[i].name != [] && w.ents[j].name != [] ==>
      Components(NameStr(w.ents[i])) != Components(NameStr(w.ents[j]))
  }

  lemma {:induction false} NamesDistinct(w: Walked, log: seq<LogEntry>)
    requires Lists(w, log) && AllReal(log)
    ensures NoRepeat(log) <==> Distinct(w)
  {
    hide Components, NameStr;
    forall i, j | 0 <= i < j < |log|
      ensures log[i].dst == log[j].dst <==> Components(NameStr(w.ents[i])) == Components(NameStr(w.ents[j]))
    {
      assert Clean(RealName, log[i].dst) && Clean(RealName, log[j].dst);
    }
    if k, l :| 0 <= k < l < |log| && log[k].dst == log[l].dst {
      assert Components(NameStr(w.ents[k])) == Components(NameStr(w.ents[l]));
    }
  }

  /** File data of more than 4096 bytes stands at a multiple of 4096 in every initramfs,
      whenever the padded name fits PATH_MAX. */
  lemma {:induction false} InitramfsAligned(calls: seq<Call>, call: Call)
    requires AllAccepted(calls) && call.FileCall? && call.md.len > 4096
    requires var off := |Archive(CUT_PROPS, 0, 0, calls)|;
             var n := |Name(call)| + 1;
             n + PadLen(off + NEWC_HDR_LEN + n, 4096) <= PATH_MAX
    ensures DataOff(CUT_PROPS, |Archive(CUT_PROPS, 0, 0, calls)|, call) % 4096 == 0
  {
    hide Archive, AllAccepted, Name, PadLen, DataOff, Pow2;
    assert Pow2(12) == 4096 by { FourK(); }
    ArchiveAligned(CUT_PROPS, 0, 0, calls);
    DataIsAligned(CUT_PROPS, |Archive(CUT_PROPS, 0, 0, calls)|, call, 12);
  }

  lemma FourK()
    ensures Pow2(12) == 4096
  {
    assert Pow2(3) == 8 && Pow2(6) == 64 && Pow2(9) == 512;
  }
}
