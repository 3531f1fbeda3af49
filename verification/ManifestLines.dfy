/** What single manifest lines of src/bin/rapido-cut.rs put into the archive. */
module ManifestLines {
  import opened Strings
  import opened Newc
  import opened Cpio
  import opened HostFs
  import opened Gather
  import opened GatherOnce
  import opened GatherParents
  import opened KmodClosure
  import opened Manifest
  import Template

  predicate IsDir(e: LogEntry) { e.origin.Mocked? && e.call.PathCall? && e.call.md.mode / 4096 % 16 == 4 }

  /** A parent directory with the owner and the time of the child and two links. */
  predicate IsParent(e: LogEntry, child: Md) {
    IsDir(e) && e.call.md == Md(2, ParentMode(child.mode), child.uid, child.gid, child.mtime, 0, 0, 0)
  }

  /** From `a` to `b` the archive grew by `e`, behind directories that are its parents,
      and the destination of `e` is seen. */
  ghost predicate Adds(a: State, b: State, e: LogEntry) {
    && a.log <= b.log && |b.log| > |a.log| && b.log[|b.log| - 1] == e
    && (forall i :: |a.log| <= i < |b.log| - 1 ==> IsParent(b.log[i], e.call.md) && (Plain(e.dst) ==> Above(b.log[i].dst, e.dst)))
    && a.seen <= b.seen && e.dst in b.seen
  }

  lemma {:induction false} DirsFromAreDirs(st: State, here: seq<Bytes>, comps: seq<Bytes>, md: Md)
    requires md.mode / 4096 % 16 == 4
    ensures var r := DirsFrom(st, here, comps, md);
            st.log <= r.st.log && forall i :: |st.log| <= i < |r.st.log| ==> IsDir(r.st.log[i]) && r.st.log[i].call.md == md
    decreases |comps|
  {
    hide Accepted, Render, TypeOf;
    if comps != [] {
      if comps[0] == DOT_DOT {
        if here != [] { DirsFromAreDirs(st, here[..|here| - 1], comps[1..], md); }
      } else {
        var next := here + [comps[0]];
        var p := Path(true, next);
        var put := Put(See(st, p), p, PathCall(Render(p), md), Mocked);
        if p in st.seen {
          DirsFromAreDirs(st, next, comps[1..], md);
        } else if put.out.Ok? {
          DirsFromAreDirs(put.st, next, comps[1..], md);
          var r := DirsFrom(put.st, next, comps[1..], md);
          assert r.st.log[|st.log|] == put.st.log[|st.log|];
        }
      }
    }
  }

  lemma {:induction false} DirsAdd(st: State, dst: Path, md: Md)
    ensures var r := Dirs(st, Parent(dst), md);
            && st.log <= r.st.log && st.seen <= r.st.seen
            && forall i :: |st.log| <= i < |r.st.log| ==> IsParent(r.st.log[i], md) && (Plain(dst) ==> Above(r.st.log[i].dst, dst))
  {
    hide DirsFrom, IsDir, Proper, ParentMode;
    var r := Dirs(st, Parent(dst), md);
    DirsExt(st, dst, md);
    ParentModeIsDir(md.mode);
    if Parent(dst).Some? { DirsFromAreDirs(st, [], Parent(dst).value.comps, ParentMd(md)); }
    if Plain(dst) { DirsAbove(st, dst, md); }
  }

  lemma {:induction false} PutUnderAdds(st: State, dst: Path, md: Md, call: Call, origin: Origin)
    requires PutUnder(st, dst, md, call, origin).out.Ok? && call.md == md
    ensures Adds(st, PutUnder(st, dst, md, call, origin).st, LogEntry(dst, call, origin))
  {
    hide Dirs, Accepted, IsParent, Above;
    DirsAdd(st, dst, md);
  }

  /** A successful `dir` line leaves its path seen; a new one is archived as a directory
      with mode 0755, owned by root, behind its parents. */
  lemma {:induction false} DirLineAdds(env: Env, st: State, args: seq<string>)
    requires DirLine(env, st, args).out.Ok?
    ensures var r := DirLine(env, st, args);
            var p := AbsName(env, Arg(args, 0));
            && p.Some?
            && if p.value in st.seen then r.st == st
               else Adds(st, r.st, LogEntry(p.value, PathCall(Render(p.value), Md(1, 0x4000 + 493, 0, 0, 0, 0, 0, 0)), Mocked))
  {
    hide AbsName, PutUnder, Adds, Render;
    var p := AbsName(env, Arg(args, 0)).value;
    if p !in st.seen { PutUnderAdds(st, p, DIR_MD, PathCall(Render(p), DIR_MD), Mocked); }
  }

  /** A successful `slink` line: the target is the second name as it is written. */
  lemma {:induction false} SlinkLineAdds(env: Env, st: State, args: seq<string>)
    requires SlinkLine(env, st, args).out.Ok?
    ensures var r := SlinkLine(env, st, args);
            var p := AbsName(env, Arg(args, 0));
            && p.Some?
            && if p.value in st.seen then r.st == st
               else
                 var target := NameSub(env, Arg(args, 1));
                 && target.Some?
                 && Adds(st, r.st, LogEntry(p.value, LinkCall(Render(p.value), Md(1, 0xA000 + 511, 0, 0, 0, 0, 0, 0), target.value), Mocked))
  {
    hide AbsName, NameSub, PutUnder, Adds, Render;
    var p, target := AbsName(env, Arg(args, 0)).value, NameSub(env, Arg(args, 1));
    if p !in st.seen { PutUnderAdds(st, p, SLINK_MD, LinkCall(Render(p), SLINK_MD, target.value), Mocked); }
  }

  /** A successful `file` line: an empty file with mode 0755, or the contents and the
      metadata of the source, which is opened and therefore followed. */
  lemma {:induction false} FileLineAdds(env: Env, st: State, args: seq<string>)
    requires FileLine(env, st, args).out.Ok?
    ensures var r := FileLine(env, st, args);
            var p := AbsName(env, Arg(args, 0));
            && p.Some?
            && if p.value in st.seen then r.st == st
               else if |args| < 2 then
                 Adds(st, r.st, LogEntry(p.value, PathCall(Render(p.value), Md(1, 0x8000 + 493, 0, 0, 0, 0, 0, 0)), Mocked))
               else
                 var src := NameSub(env, Arg(args, 1));
                 && src.Some? && OpenNode(env.fs, ParsePath(src.value)).Some?
                 && var node := OpenNode(env.fs, ParsePath(src.value)).value;
                    var md := MdFrom(CUT_PROPS, node.stat);
                 && md.Some?
                 && Adds(st, r.st, LogEntry(p.value, FileCall(Render(p.value), md.value, node.content), Copied(ParsePath(src.value))))
  {
    hide AbsName, NameSub, PutUnder, Adds, Render, OpenNode, MdFrom, ParsePath;
    var p, src := AbsName(env, Arg(args, 0)).value, NameSub(env, Arg(args, 1));
    if p !in st.seen && |args| < 2 {
      PutUnderAdds(st, p, DEFAULT_MD, PathCall(Render(p), DEFAULT_MD), Mocked);
    } else if p !in st.seen {
      var node := OpenNode(env.fs, ParsePath(src.value)).value;
      var md := MdFrom(CUT_PROPS, node.stat).value;
      PutUnderAdds(st, p, md, FileCall(Render(p), md, node.content), Copied(ParsePath(src.value)));
    }
  }

  /** A path that a `filter` line names is never archived by any later line but
      `autorun`, unless it is in the archive already. */
  lemma {:induction false} FilterHides(env: Env, run: Run, args: seq<string>, lines: seq<Line>)
    requires FilterLine(env, run.st, args).out.Ok? && NoAutorun(lines)
    ensures var p := AbsName(env, Arg(args, 0));
            && p.Some?
            && var after := run.(st := FilterLine(env, run.st, args).st);
               var end := RunLines(env, after, lines).run.st;
               Archived(end.log, |end.log|, p.value) <==> Archived(run.st.log, |run.st.log|, p.value)
  {
    hide AbsName, RunLines, NoAutorun, Ext, ParentsFirst;
    var p := AbsName(env, Arg(args, 0)).value;
    var after := run.(st := FilterLine(env, run.st, args).st);
    RunKeeps(env, after, lines);
    var end := RunLines(env, after, lines).run.st;
    if Archived(run.st.log, |run.st.log|, p) {
      ExtLog(after.st, end);
      ArchivedKept(run.st.log, end.log, |run.st.log|, |end.log|, p);
    } else {
      PhantomKept(after.st, end, p);
    }
  }

  // ---- names without references -------------------------------------------

  lemma {:induction false} LiteralName(env: Env, name: string)
    requires Free(name, Template.TemplateChar)
    ensures NameSub(env, Some(name)) == Some(Encode(name))
  {
    Template.TemplateExpands(env.conf, [Template.Lit(name)]);
    assert Template.Render([Template.Lit(name)]) == name;
    assert Template.Expand(env.conf, [Template.Lit(name)]) == Some(name);
  }

  lemma {:induction false} LiteralPath(env: Env, p: Path, name: string)
    requires Free(name, Template.TemplateChar) && p.absolute && CompsOk(p.comps) && Encode(name) == Render(p)
    ensures AbsName(env, Some(name)) == Some(p)
  {
    hide NameSub, Absolute, Render;
    LiteralName(env, name);
    AbsoluteRender(env.fs.cwd, p);
  }

  lemma TwoLines(env: Env, run: Run, lines: seq<Line>)
    requires |lines| == 2 && LineRun(env, run, lines[0]).out.Ok?
    ensures RunLines(env, run, lines) == LineRun(env, LineRun(env, run, lines[0]).run, lines[1])
  {
    hide LineRun;
    var r := LineRun(env, LineRun(env, run, lines[0]).run, lines[1]);
    assert lines[1..] == [lines[1]] && lines[1..][1..] == [];
    assert RunLines(env, r.run, []) == RunResult(r.run, Ok);
  }
}
