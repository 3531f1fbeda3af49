/** Kernel modules over whole manifests (src/bin/rapido-cut.rs): which requested
    modules are in the archive when a run ends. */
module KmodRuns {
  import opened Strings
  import opened Newc
  import opened HostFs
  import opened Gather
  import opened GatherOnce
  import opened GatherParents
  import opened KmodIndex
  import opened KmodGather
  import opened KmodClosure
  import opened Manifest

  predicate IsKmodLine(line: Line) { |line| > 1 && (line[0] == "kmod" || line[0] == "try-kmod") }

  /** The state in which a request is handled: the module database files come
      first. */
  function Ready(env: Env, run: Run): Result
    requires env.kmods.Some?
  {
    if run.kmodsReady then Result(run.st, Ok) else KmodInit(env.fs, env.kmods.value, run.st)
  }

  function Request(env: Env, run: Run, line: Line): Result
    requires env.kmods.Some? && IsKmodLine(line)
  {
    KmodRequest(env.fs, env.kmods.value, Ready(env, run).st, Encode(line[1]))
  }

  function Wanted(env: Env, line: Line): Option<Kmod>
    requires env.kmods.Some? && IsKmodLine(line)
  {
    FindModule(env.kmods.value.index, Encode(line[1]))
  }

  lemma {:induction false} KmodLineIs(env: Env, run: Run, line: Line)
    requires env.kmods.Some? && IsKmodLine(line) && LineRun(env, run, line).out.Ok?
    ensures var r := Request(env, run, line);
            && LineRun(env, run, line).run.st == r.st
            && (r.out.Ok? || (line[0] == "try-kmod" && r.out == Err(NotFound)))
  {
    hide KmodInit, KmodRequest, Encode;
    assert line[1..][0] == line[1];
  }

  lemma {:induction false} ReadySound(env: Env, run: Run)
    requires env.kmods.Some?
    ensures Sound(run.st, Ready(env, run).st)
  {
    hide Sound, KmodTry, ModuleDbFiles;
    SoundSelf(run.st);
    KmodTrySound(env.fs, env.kmods.value, run.st, ModuleDbFiles());
  }

  // ---- closure ------------------------------------------------------------

  /** Paths seen in ways that promise nothing about modules: database files, soft
      and weak dependencies, requests that failed and were ignored, other lines. */
  function LooseReady(env: Env, run: Run, loose: set<Path>): set<Path>
    requires env.kmods.Some?
  {
    loose + (Ready(env, run).st.seen - run.st.seen)
  }

  function LooseNext(env: Env, run: Run, line: Line, loose: set<Path>): set<Path>
    requires env.kmods.Some?
  {
    if IsKmodLine(line) then
      var ready, all := Ready(env, run), LooseReady(env, run, loose);
      var r := Request(env, run, line);
      if r.out.Ok? then LooseAfter(env.fs, env.kmods.value, ready.st, Encode(line[1]), all)
      else all + (r.st.seen - ready.st.seen)
    else loose + (LineRun(env, run, line).run.st.seen - run.st.seen)
  }

  /** No successful request needs a file that was seen in one of those ways only. */
  ghost predicate Clear(env: Env, run: Run, loose: set<Path>, lines: seq<Line>)
    requires env.kmods.Some?
    decreases |lines|
  {
    hide LineRun, Request, LooseReady, LooseNext, Needs, NotLoose, FindModule, Encode;
    lines != [] ==>
      && (IsKmodLine(lines[0]) && Request(env, run, lines[0]).out.Ok? ==>
            var m := Wanted(env, lines[0]);
            m.Some? && !m.value.builtin ==> NotLoose(env.kmods.value, Needs(m.value), LooseReady(env, run, loose)))
      && Clear(env, LineRun(env, run, lines[0]).run, LooseNext(env, run, lines[0], loose), lines[1..])
  }

  /** Loading the index keeps what is complete complete. */
  lemma {:induction false} ReadyCloses(env: Env, run: Run, loose: set<Path>)
    requires env.kmods.Some? && Closed(env.kmods.value, run.st, loose)
    ensures Closed(env.kmods.value, Ready(env, run).st, LooseReady(env, run, loose))
  {
    hide Closed, Ready, Ext, Calm, ParentsFirst;
    ReadySound(env, run);
    LoosePhase(env.kmods.value, run.st, Ready(env, run).st, loose);
  }

  lemma {:induction false} KmodLineCloses(env: Env, run: Run, line: Line, loose: set<Path>)
    requires env.kmods.Some? && TransitivelyClosed(env.kmods.value) && Layout(env.kmods.value)
    requires Closed(env.kmods.value, run.st, loose) && IsKmodLine(line) && Clear(env, run, loose, [line])
    ensures var r := Request(env, run, line);
            var m := Wanted(env, line);
            && Closed(env.kmods.value, r.st, LooseNext(env, run, line, loose))
            && (r.out.Ok? ==> m.Some? && (!m.value.builtin ==> HasAll(env.kmods.value, r.st, m.value)))
  {
    hide Closed, Ready, Ext, Calm, ParentsFirst, KmodRequest, LooseAfter, HasAll, FindModule, NotLoose, Needs, TransitivelyClosed, Layout, Encode, LineRun;
    var k := env.kmods.value;
    var ready := Ready(env, run);
    ReadyCloses(env, run, loose);
    var r := Request(env, run, line);
    if r.out.Ok? {
      RequestFinds(env.fs, k, ready.st, Encode(line[1]));
      RequestCloses(env.fs, k, ready.st, Encode(line[1]), LooseReady(env, run, loose));
    } else {
      KmodRequestSound(env.fs, k, ready.st, Encode(line[1]));
      LoosePhase(k, ready.st, r.st, LooseReady(env, run, loose));
    }
  }

  lemma {:induction false} LineCloses(env: Env, run: Run, line: Line, loose: set<Path>)
    requires env.kmods.Some? && TransitivelyClosed(env.kmods.value) && Layout(env.kmods.value)
    requires Closed(env.kmods.value, run.st, loose) && Clear(env, run, loose, [line])
    requires LineRun(env, run, line).out.Ok? && NoAutorun([line])
    ensures Closed(env.kmods.value, LineRun(env, run, line).run.st, LooseNext(env, run, line, loose))
  {
    hide Closed, Ready, Ext, ParentsFirst, Request, HasAll, Wanted, TransitivelyClosed, Layout, Directive, Clear, LooseAfter;
    if IsKmodLine(line) {
      KmodLineCloses(env, run, line, loose);
      KmodLineIs(env, run, line);
    } else {
      LineKeeps(env, run, line);
      LoosePhase(env.kmods.value, run.st, LineRun(env, run, line).run.st, loose);
    }
  }

  lemma {:induction false} LineKeeps(env: Env, run: Run, line: Line)
    requires NoAutorun([line])
    ensures Ext(run.st, LineRun(env, run, line).run.st)
  {
    hide Ext, ParentsFirst, Directive;
    ExtSelf(run.st);
    assert [line][0] == line;
    if !IsBlank(line) { DirectiveKeeps(env, run, line[0], line[1..]); }
  }

  lemma {:induction false} ClearFirst(env: Env, run: Run, loose: set<Path>, lines: seq<Line>)
    requires env.kmods.Some? && lines != [] && Clear(env, run, loose, lines)
    ensures Clear(env, run, loose, [lines[0]])
    ensures Clear(env, LineRun(env, run, lines[0]).run, LooseNext(env, run, lines[0], loose), lines[1..])
  {
    hide LineRun, LooseNext, LooseReady, Request, Wanted, NotLoose, Needs;
    assert [lines[0]][0] == lines[0] && [lines[0]][1..] == [];
  }

  lemma {:induction false} RunStep(env: Env, run: Run, lines: seq<Line>, i: nat)
    requires 0 < i <= |lines| && LineRun(env, run, lines[0]).out.Ok?
    ensures RunLines(env, run, lines[..i]) == RunLines(env, LineRun(env, run, lines[0]).run, lines[1..][..i - 1])
  {
    hide LineRun;
    assert lines[..i][0] == lines[0] && lines[..i][1..] == lines[1..][..i - 1];
  }

  /** Module closure over any manifest without `autorun`, from any closed state. */
  lemma {:induction false} RunCloses(env: Env, run: Run, lines: seq<Line>, loose: set<Path>, i: nat)
    requires env.kmods.Some? && TransitivelyClosed(env.kmods.value) && Layout(env.kmods.value)
    requires Closed(env.kmods.value, run.st, loose) && Clear(env, run, loose, lines) && NoAutorun(lines)
    requires RunLines(env, run, lines).out.Ok? && i < |lines| && IsKmodLine(lines[i])
    ensures var before := RunLines(env, run, lines[..i]).run;
            var m := Wanted(env, lines[i]);
            Request(env, before, lines[i]).out.Ok? ==>
              m.Some? && (!m.value.builtin ==> HasAll(env.kmods.value, RunLines(env, run, lines).run.st, m.value))
    decreases |lines|
  {
    hide Closed, Clear, Ext, ParentsFirst, Request, HasAll, Wanted, TransitivelyClosed, Layout, LineRun, LooseNext;
    var r := LineRun(env, run, lines[0]);
    ClearFirst(env, run, loose, lines);
    assert NoAutorun([lines[0]]) && NoAutorun(lines[1..]);
    if i > 0 {
      LineCloses(env, run, lines[0], loose);
      RunCloses(env, r.run, lines[1..], LooseNext(env, run, lines[0], loose), i - 1);
      RunStep(env, run, lines, i);
    } else {
      assert lines[..0] == [];
      KmodLineCloses(env, run, lines[0], loose);
      KmodLineIs(env, run, lines[0]);
      RunKeeps(env, r.run, lines[1..]);
      var m := Wanted(env, lines[0]);
      if Request(env, run, lines[0]).out.Ok? && !m.value.builtin {
        HasAllKept(env.kmods.value, r.run.st, RunLines(env, r.run, lines[1..]).run.st, m.value);
      }
    }
  }

  /** Module closure over any manifest from the start: with a transitively closed
      modules.dep, every loadable module of a successful `kmod` or `try-kmod` request
      is in the archive at the end, with all its hard dependencies and each once. */
  lemma {:induction false} ManifestCloses(env: Env, lines: seq<Line>, i: nat)
    requires env.kmods.Some? && TransitivelyClosed(env.kmods.value) && Layout(env.kmods.value)
    requires Clear(env, FRESH_RUN, {}, lines) && NoAutorun(lines)
    requires RunLines(env, FRESH_RUN, lines).out.Ok? && i < |lines| && IsKmodLine(lines[i])
    ensures Once(RunLines(env, FRESH_RUN, lines).run.st)
    ensures var m := Wanted(env, lines[i]);
            lines[i][0] == "kmod" || Request(env, RunLines(env, FRESH_RUN, lines[..i]).run, lines[i]).out.Ok? ==>
              m.Some? && (!m.value.builtin ==> HasAll(env.kmods.value, RunLines(env, FRESH_RUN, lines).run.st, m.value))
  {
    hide Clear, Request, HasAll, Wanted, TransitivelyClosed, Layout, RunLines, NoAutorun, Closed, Once, ParentsFirst;
    ManifestRunSound(env, lines);
    FreshCloses(env.kmods.value);
    RunCloses(env, FRESH_RUN, lines, {}, i);
    if lines[i][0] == "kmod" { KmodSucceeds(env, FRESH_RUN, lines, i); }
  }

  lemma FreshCloses(k: KmodCtx)
    ensures Closed(k, FRESH_RUN.st, {})
  {
    hide LoadableModule, HasAll;
  }

  /** In a successful run every `kmod` request succeeded. */
  lemma {:induction false} KmodSucceeds(env: Env, run: Run, lines: seq<Line>, i: nat)
    requires env.kmods.Some? && RunLines(env, run, lines).out.Ok? && i < |lines| && IsKmodLine(lines[i])
    ensures var before := RunLines(env, run, lines[..i]).run;
            && LineRun(env, before, lines[i]).out.Ok?
            && (lines[i][0] == "kmod" ==> Request(env, before, lines[i]).out.Ok?)
    decreases |lines|
  {
    hide LineRun, Request;
    if i > 0 {
      KmodSucceeds(env, LineRun(env, run, lines[0]).run, lines[1..], i - 1);
      RunStep(env, run, lines, i);
    } else {
      assert lines[..0] == [];
      KmodLineIs(env, run, lines[0]);
    }
  }

  // ---- the exact condition ------------------------------------------------

  /** Without any assumption on modules.dep: the module of a successful request is in
      the archive at the end if and only if it was not seen without being archived
      before the request; and if it had not been seen, all its hard dependencies are
      there if and only if the same holds for them. */
  lemma {:induction false} ManifestExact(env: Env, lines: seq<Line>, i: nat)
    requires env.kmods.Some? && NoAutorun(lines)
    requires RunLines(env, FRESH_RUN, lines).out.Ok? && i < |lines| && IsKmodLine(lines[i])
    requires var before := RunLines(env, FRESH_RUN, lines[..i]).run;
             Request(env, before, lines[i]).out.Ok? && Wanted(env, lines[i]).Some? && !Wanted(env, lines[i]).value.builtin
    ensures var k := env.kmods.value;
            var ready := Ready(env, RunLines(env, FRESH_RUN, lines[..i]).run).st;
            var end := RunLines(env, FRESH_RUN, lines).run.st;
            var m := Wanted(env, lines[i]).value;
            && (Has(k, end, m.relPath) <==> !Phantom(ready, KmodDst(k, m.relPath)))
            && (KmodDst(k, m.relPath) !in ready.seen ==>
                  (HasAll(k, end, m) <==> forall j :: 0 <= j < |m.hard| ==> !Phantom(ready, KmodDst(k, m.hard[j]))))
  {
    hide RunLines, NoAutorun, LineRun, Ready, Phantom, KmodDst, KmodRequest, Archived, Ext, ParentsFirst, Encode, FindModule;
    var k := env.kmods.value;
    var before := RunLines(env, FRESH_RUN, lines[..i]).run;
    var ready := Ready(env, before).st;
    var m := Wanted(env, lines[i]).value;
    var r := Request(env, before, lines[i]);
    var end := RunLines(env, FRESH_RUN, lines).run.st;
    RequestExact(env.fs, k, ready, Encode(lines[i][1]));
    RestKeeps(env, lines, i);
    StaysAsItIs(k, r.st, end, m.relPath);
    if KmodDst(k, m.relPath) !in ready.seen {
      forall j | 0 <= j < |m.hard| ensures Has(k, end, m.hard[j]) <==> Has(k, r.st, m.hard[j]) {
        StaysAsItIs(k, r.st, end, m.hard[j]);
      }
    }
  }

  lemma {:induction false} RestKeeps(env: Env, lines: seq<Line>, i: nat)
    requires env.kmods.Some? && NoAutorun(lines) && RunLines(env, FRESH_RUN, lines).out.Ok?
    requires i < |lines| && IsKmodLine(lines[i])
    ensures Ext(Request(env, RunLines(env, FRESH_RUN, lines[..i]).run, lines[i]).st, RunLines(env, FRESH_RUN, lines).run.st)
  {
    hide LineRun, Request, Ext, ParentsFirst;
    var before := RunLines(env, FRESH_RUN, lines[..i]).run;
    KmodSucceeds(env, FRESH_RUN, lines, i);
    KmodLineIs(env, before, lines[i]);
    RunSplits(env, FRESH_RUN, lines, i);
    RunKeeps(env, LineRun(env, before, lines[i]).run, lines[i + 1..]);
  }

  lemma {:induction false} RunSplits(env: Env, run: Run, lines: seq<Line>, i: nat)
    requires RunLines(env, run, lines).out.Ok? && i < |lines|
    ensures var before := RunLines(env, run, lines[..i]).run;
            RunLines(env, run, lines) == RunLines(env, LineRun(env, before, lines[i]).run, lines[i + 1..])
    decreases |lines|
  {
    hide LineRun;
    if i > 0 {
      RunSplits(env, LineRun(env, run, lines[0]).run, lines[1..], i - 1);
      RunStep(env, run, lines, i);
      assert lines[1..][i..] == lines[i + 1..];
    } else {
      assert lines[..0] == [];
    }
  }
}
