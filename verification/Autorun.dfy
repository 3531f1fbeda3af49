/** At most once over whole runs with `autorun` lines (src/bin/rapido-cut.rs), which
    do not look at the seen paths and do not enter their destinations there. */
module Autorun {
  import opened Strings
  import opened Newc
  import opened Cpio
  import opened HostFs
  import opened Numbers
  import opened Gather
  import opened GatherOnce
  import opened KmodGather
  import opened Manifest

  predicate NoRepeat(log: seq<LogEntry>) {
    forall i, j :: 0 <= i < j < |log| ==> log[i].dst != log[j].dst
  }

  /** Archived by an `autorun` line and by another line as well. */
  predicate Clashes(a: LogEntry, b: LogEntry) {
    ByAutorun(a.origin) && !ByAutorun(b.origin) && a.dst == b.dst
  }

  ghost predicate Clash(log: seq<LogEntry>) {
    exists i, j :: 0 <= i < |log| && 0 <= j < |log| && Clashes(log[i], log[j])
  }

  // ---- the numbers keep the locations apart -------------------------------

  ghost predicate IsNumber(p: Path, idx: nat) { exists name :: p == AutorunDst(idx, name) }

  /** No two locations of a run share a destination, whatever their names. */
  lemma {:induction false} NumbersApart(i: nat, j: nat, a: Bytes, b: Bytes)
    requires AutorunDst(i, a) == AutorunDst(j, b)
    ensures i == j
  {
    hide Decimal3, Encode;
    var x, y := Decimal3(i), Decimal3(j);
    assert AutorunDst(i, a).comps[1] == AutorunDst(j, b).comps[1];
    var s := x + [45] + a;
    assert s == y + [45] + b;
    assert s[|x|] == 45 && s[|y|] == 45;
    Decimal3Reads(i);
    Decimal3Reads(j);
    assert x == s[..|x|] && y == s[..|y|];
  }

  lemma DirIsNoNumber(idx: nat)
    ensures !IsNumber(AutorunDir(), idx)
  {
    hide Decimal3, Encode;
    forall name ensures AutorunDst(idx, name) != AutorunDir() {
      assert |AutorunDst(idx, name).comps| == 2 && |AutorunDir().comps| == 1;
    }
  }

  ghost predicate NumberedAs(e: LogEntry, n: nat) {
    match e.origin
    case NumberedDir => e.dst == AutorunDir()
    case Numbered(_, idx) => idx < n && IsNumber(e.dst, idx)
    case _ => true
  }

  /** The directory comes first, and the numbers grow. */
  predicate Before(a: Origin, b: Origin) {
    ByAutorun(a) && ByAutorun(b) ==> b.Numbered? && (a.NumberedDir? || a.idx < b.idx)
  }

  ghost predicate Numbering(log: seq<LogEntry>, n: nat) {
    && (forall i :: 0 <= i < |log| ==> NumberedAs(log[i], n))
    && (forall i, j :: 0 <= i < j < |log| ==> Before(log[i].origin, log[j].origin))
  }

  lemma {:induction false} ApartBefore(a: LogEntry, b: LogEntry, n: nat)
    requires NumberedAs(a, n) && NumberedAs(b, n) && Before(a.origin, b.origin)
    requires ByAutorun(a.origin) && ByAutorun(b.origin)
    ensures a.dst != b.dst
  {
    hide AutorunDst, AutorunDir;
    var y :| b.dst == AutorunDst(b.origin.idx, y);
    if a.origin.NumberedDir? {
      DirIsNoNumber(b.origin.idx);
    } else {
      var x :| a.dst == AutorunDst(a.origin.idx, x);
      if a.dst == b.dst { NumbersApart(a.origin.idx, b.origin.idx, x, y); }
    }
  }

  predicate Unnumbered(log: seq<LogEntry>) {
    forall i :: 0 <= i < |log| ==> !ByAutorun(log[i].origin)
  }

  lemma {:induction false} SnocDir(log: seq<LogEntry>, e: LogEntry)
    requires Unnumbered(log) && e.origin.NumberedDir? && e.dst == AutorunDir()
    ensures Numbering(log + [e], 0)
  {
    hide AutorunDir;
  }

  lemma {:induction false} SnocNumber(log: seq<LogEntry>, n: nat, e: LogEntry)
    requires Numbering(log, n) && e.origin.Numbered? && e.origin.idx == n && IsNumber(e.dst, n)
    ensures Numbering(log + [e], n + 1)
  {
    hide AutorunDir, IsNumber;
    var more := log + [e];
    forall i | 0 <= i < |more| ensures NumberedAs(more[i], n + 1) {
      if i < |log| { assert NumberedAs(log[i], n); }
    }
    forall i, j | 0 <= i < j < |more| ensures Before(more[i].origin, more[j].origin) {
      assert NumberedAs(log[i], n);
      if j < |log| { assert Before(log[i].origin, log[j].origin); }
    }
  }

  lemma {:induction false} OthersNumbering(a: seq<LogEntry>, b: seq<LogEntry>, n: nat)
    requires Numbering(a, n) && a <= b && Unnumbered(b[|a|..])
    ensures Numbering(b, n)
    ensures Unnumbered(a) ==> Unnumbered(b)
  {
    hide AutorunDir, IsNumber;
    forall i | |a| <= i < |b| ensures !ByAutorun(b[i].origin) { assert b[i] == b[|a|..][i - |a|]; }
    forall i | 0 <= i < |b| ensures NumberedAs(b[i], n) {
      if i < |a| { assert b[i] == a[i]; }
    }
    forall i, j | 0 <= i < j < |b| ensures Before(b[i].origin, b[j].origin) {
      if j < |a| { assert b[i] == a[i] && b[j] == a[j]; }
    }
  }

  // ---- all other lines look at the seen paths -----------------------------

  /** Paths archived by lines other than `autorun`: seen, and each once. */
  ghost predicate OthersOnce(st: State) {
    && (forall i :: 0 <= i < |st.log| && !ByAutorun(st.log[i].origin) ==> st.log[i].dst in st.seen)
    && (forall i, j :: 0 <= i < j < |st.log| && !ByAutorun(st.log[i].origin) && !ByAutorun(st.log[j].origin) ==>
          st.log[i].dst != st.log[j].dst)
  }

  lemma {:induction false} ExtOthers(a: State, b: State)
    requires OthersOnce(a) && Ext(a, b)
    ensures OthersOnce(b) && a.log <= b.log && Unnumbered(b.log[|a.log|..])
  {
    hide Accepted, Render;
    forall i | 0 <= i < |b.log| && !ByAutorun(b.log[i].origin) ensures b.log[i].dst in b.seen {
      if i < |a.log| { assert b.log[i] == a.log[i]; }
    }
    forall i, j | 0 <= i < j < |b.log| && !ByAutorun(b.log[i].origin) && !ByAutorun(b.log[j].origin)
      ensures b.log[i].dst != b.log[j].dst
    {
      if i < |a.log| { assert b.log[i] == a.log[i]; }
      if j < |a.log| { assert b.log[j] == a.log[j]; }
    }
    forall k | 0 <= k < |b.log[|a.log|..]| ensures !ByAutorun(b.log[|a.log|..][k].origin) {
      assert Proper(b.log[|a.log| + k]);
    }
  }

  lemma {:induction false} AddedByAutorun(a: State, b: State, e: LogEntry)
    requires OthersOnce(a) && a.seen <= b.seen && b.log == a.log + [e] && ByAutorun(e.origin)
    ensures OthersOnce(b)
  {
  }

  // ---- whole runs ---------------------------------------------------------

  /** What holds between two lines, and at the end of a failed run. */
  ghost predicate Orderly(r: RunResult) {
    && OthersOnce(r.run.st) && Numbering(r.run.st.log, r.run.autorun)
    && (r.out.Ok? && r.run.autorun == 0 ==> Unnumbered(r.run.st.log))
  }

  /** What one location adds: the directory before the first one, then its file. */
  lemma {:induction false} AutorunAdds(env: Env, run: Run, loc: string) returns (mid: State)
    ensures var r := AutorunOne(env, run, loc);
            && (mid == run.st || (run.autorun == 0 && |mid.log| == |run.st.log| + 1
                  && mid.log == run.st.log + [mid.log[|run.st.log|]] && run.st.seen <= mid.seen
                  && mid.log[|run.st.log|].origin.NumberedDir? && mid.log[|run.st.log|].dst == AutorunDir()))
            && (r.out.Err? ==> r.run == run.(st := mid))
            && (r.out.Ok? ==>
                  && |r.run.st.log| == |mid.log| + 1 && r.run.autorun == run.autorun + 1
                  && var e := r.run.st.log[|mid.log|];
                  && r.run.st == mid.(log := mid.log + [e])
                  && e.origin.Numbered? && e.origin.idx == run.autorun && IsNumber(e.dst, run.autorun))
  {
    hide AbsName, OpenNode, MdFrom, Accepted, Render, AutorunDir, AutorunDst;
    var r := AutorunOne(env, run, loc);
    mid := run.st;
    var src := AbsName(env, Some(loc));
    if src.Some? && src.value.comps != [] && src.value.comps[|src.value.comps| - 1] != DOT_DOT {
      var dir := Put(run.st, AutorunDir(), PathCall(Render(AutorunDir()), DIR_MD), NumberedDir);
      if run.autorun == 0 && dir.out.Ok? { mid := See(dir.st, AutorunDir()); }
      if r.out.Ok? { assert r.run.st.log[|mid.log|].dst == AutorunDst(run.autorun, src.value.comps[|src.value.comps| - 1]); }
    }
  }

  lemma {:induction false} AutorunOneOrderly(env: Env, run: Run, loc: string)
    requires Orderly(RunResult(run, Ok))
    ensures Orderly(AutorunOne(env, run, loc))
  {
    hide AutorunOne, OthersOnce, Numbering, Unnumbered, IsNumber, AutorunDir;
    var r := AutorunOne(env, run, loc);
    var mid := AutorunAdds(env, run, loc);
    if mid != run.st {
      var d := mid.log[|run.st.log|];
      SnocDir(run.st.log, d);
      AddedByAutorun(run.st, mid, d);
    }
    if r.out.Ok? {
      var e := r.run.st.log[|mid.log|];
      SnocNumber(mid.log, run.autorun, e);
      AddedByAutorun(mid, r.run.st, e);
    }
  }

  lemma {:induction false} AutorunOrderly(env: Env, run: Run, locs: seq<string>)
    requires Orderly(RunResult(run, Ok))
    ensures Orderly(AutorunAll(env, run, locs))
    decreases |locs|
  {
    hide Orderly, AutorunOne;
    if locs != [] {
      var r := AutorunOne(env, run, locs[0]);
      AutorunOneOrderly(env, run, locs[0]);
      if r.out.Ok? {
        assert r == RunResult(r.run, Ok);
        AutorunOrderly(env, r.run, locs[1..]);
      }
    }
  }

  lemma {:induction false} OtherOrderly(env: Env, run: Run, etype: string, args: seq<string>)
    requires Orderly(RunResult(run, Ok)) && etype != "autorun"
    ensures Orderly(Directive(env, run, etype, args))
  {
    hide Directive, Numbering, Unnumbered, OthersOnce, Ext;
    var r := Directive(env, run, etype, args);
    DirectiveKeeps(env, run, etype, args);
    ExtOthers(run.st, r.run.st);
    OthersNumbering(run.st.log, r.run.st.log, run.autorun);
    SameAutorun(env, run, etype, args);
  }

  lemma SameAutorun(env: Env, run: Run, etype: string, args: seq<string>)
    requires etype != "autorun"
    ensures Directive(env, run, etype, args).run.autorun == run.autorun
  {
    hide DirLine, SlinkLine, FileLine, BinLine, TreeLine, FilterLine, KmodInit, KmodRequest;
  }

  lemma {:induction false} LineOrderly(env: Env, run: Run, line: Line)
    requires Orderly(RunResult(run, Ok))
    ensures Orderly(LineRun(env, run, line))
  {
    hide OthersOnce, Numbering, Unnumbered, Directive;
    if !IsBlank(line) { DirectiveOrderly(env, run, line[0], line[1..]); }
  }

  lemma {:induction false} DirectiveOrderly(env: Env, run: Run, etype: string, args: seq<string>)
    requires Orderly(RunResult(run, Ok))
    ensures Orderly(Directive(env, run, etype, args))
  {
    hide OthersOnce, Numbering, Unnumbered, Directive, AutorunAll;
    if etype == "autorun" {
      AutorunOrderly(env, run, args);
      AutorunIs(env, run, args);
    } else {
      OtherOrderly(env, run, etype, args);
    }
  }

  lemma AutorunIs(env: Env, run: Run, args: seq<string>)
    ensures Directive(env, run, "autorun", args) == if args == [] then RunResult(run, Err(Other)) else AutorunAll(env, run, args)
  {
    hide AutorunAll;
  }

  lemma {:induction false} RunOrderly(env: Env, run: Run, lines: seq<Line>)
    requires Orderly(RunResult(run, Ok))
    ensures Orderly(RunLines(env, run, lines))
    decreases |lines|
  {
    hide Orderly, LineRun;
    if lines != [] {
      var r := LineRun(env, run, lines[0]);
      LineOrderly(env, run, lines[0]);
      if r.out.Ok? {
        assert r == RunResult(r.run, Ok);
        RunOrderly(env, r.run, lines[1..]);
      }
    }
  }

  lemma {:induction false} OrderlyExact(r: RunResult)
    requires Orderly(r)
    ensures NoRepeat(r.run.st.log) <==> !Clash(r.run.st.log)
  {
    hide NumberedAs, Unnumbered, Before;
    var log := r.run.st.log;
    if Clash(log) {
      var i, j :| 0 <= i < |log| && 0 <= j < |log| && Clashes(log[i], log[j]);
      assert i != j;
    }
    if i, j :| 0 <= i < j < |log| && log[i].dst == log[j].dst {
      if ByAutorun(log[i].origin) && ByAutorun(log[j].origin) { ApartBefore(log[i], log[j], r.run.autorun); }
      assert Clashes(log[i], log[j]) || Clashes(log[j], log[i]);
    }
  }

  lemma FreshOrderly()
    ensures Orderly(RunResult(FRESH_RUN, Ok))
  {
  }

  /** At most once over every run, `autorun` lines included: no destination is
      archived twice if and only if no other line archives the directory or a
      numbered destination of the `autorun` lines. */
  lemma {:induction false} RunRepeatsExactly(env: Env, lines: seq<Line>)
    ensures var log := RunLines(env, FRESH_RUN, lines).run.st.log;
            NoRepeat(log) <==> !Clash(log)
  {
    hide RunLines, NoRepeat, Clash, Orderly;
    FreshOrderly();
    RunOrderly(env, FRESH_RUN, lines);
    OrderlyExact(RunLines(env, FRESH_RUN, lines));
  }

  // ---- both ways to fail --------------------------------------------------

  /** If the directory is in the archive already, the first location archives it
      again. */
  lemma {:induction false} AutorunRepeats(env: Env, run: Run, loc: string, i: nat)
    requires run.autorun == 0 && i < |run.st.log| && run.st.log[i].dst == AutorunDir()
    requires AutorunOne(env, run, loc).out.Ok?
    ensures !NoRepeat(AutorunOne(env, run, loc).run.st.log)
  {
    hide AbsName, OpenNode, MdFrom, Accepted, Render, Decimal3, AutorunDir, AutorunDst;
    var log := AutorunOne(env, run, loc).run.st.log;
    var n := |run.st.log|;
    assert log[n].dst == AutorunDir() && log[i] == run.st.log[i];
  }

  /** A location leaves its destination unseen, so a later `dir` line for it archives
      it again. */
  lemma {:induction false} LaterLineRepeats(env: Env, run: Run, loc: string, args: seq<string>)
    requires AutorunOne(env, run, loc).out.Ok?
    requires var st := AutorunOne(env, run, loc).run.st;
             && st.log != []
             && var dst := st.log[|st.log| - 1].dst;
             && dst !in run.st.seen && AbsName(env, Arg(args, 0)) == Some(dst) && DirLine(env, st, args).out.Ok?
    ensures var st := AutorunOne(env, run, loc).run.st; !NoRepeat(DirLine(env, st, args).st.log)
  {
    hide AutorunOne, AbsName, Dirs, Render, Accepted, Ext, NoRepeat, DirLine;
    var st := AutorunOne(env, run, loc).run.st;
    LocationStaysUnseen(env, run, loc);
    UnseenRepeats(env, st, args, |st.log| - 1);
  }

  lemma {:induction false} UnseenRepeats(env: Env, st: State, args: seq<string>, i: nat)
    requires i < |st.log| && st.log[i].dst !in st.seen
    requires AbsName(env, Arg(args, 0)) == Some(st.log[i].dst) && DirLine(env, st, args).out.Ok?
    ensures !NoRepeat(DirLine(env, st, args).st.log)
  {
    hide AbsName, Dirs, Render, Accepted, Ext;
    var dst := st.log[i].dst;
    var dirs := Dirs(st, Parent(dst), DIR_MD);
    DirsExt(st, dst, DIR_MD);
    assert st.log <= dirs.st.log by { ExtLog(st, dirs.st); }
    var log := DirLine(env, st, args).st.log;
    assert log[i].dst == dst && log[|dirs.st.log|].dst == dst;
  }

  lemma {:induction false} LocationStaysUnseen(env: Env, run: Run, loc: string)
    requires AutorunOne(env, run, loc).out.Ok?
    ensures var st := AutorunOne(env, run, loc).run.st;
            && st.log != []
            && var e := st.log[|st.log| - 1];
            && e.origin.Numbered? && (e.dst !in run.st.seen ==> e.dst !in st.seen)
  {
    hide AbsName, OpenNode, MdFrom, Accepted, Render, AutorunDir, AutorunDst;
    DirIsNoNumber(run.autorun);
    var st := AutorunOne(env, run, loc).run.st;
    var mid := AutorunAdds(env, run, loc);
    assert st.seen <= run.st.seen + {AutorunDir()};
  }
}
