/** At most once: no function of the gatherer archives a path that was seen, and
    every path it archives is seen afterwards. */
module GatherOnce {
  import opened Newc
  import opened Cpio
  import opened HostFs
  import opened Gather

  /** An entry whose archive call names its destination and was accepted, and that
      comes from no `autorun` line. */
  predicate Proper(e: LogEntry) { Accepted(e.call) && e.call.path == Render(e.dst) && !ByAutorun(e.origin) }

  /** How far one state may be ahead of another: more seen, more archived, and
      what was archived in between is proper, new, seen now, and each once. */
  ghost predicate Ext(a: State, b: State) {
    && a.seen <= b.seen
    && a.log <= b.log
    && (forall i :: |a.log| <= i < |b.log| ==>
          b.log[i].dst !in a.seen && b.log[i].dst in b.seen && Proper(b.log[i]))
    && (forall i, j :: |a.log| <= i < j < |b.log| ==> b.log[i].dst != b.log[j].dst)
  }

  lemma ExtSelf(a: State)
    ensures Ext(a, a)
  {
  }

  lemma ExtSeen(a: State, b: State)
    requires Ext(a, b)
    ensures a.seen <= b.seen
  {
  }

  lemma ExtLog(a: State, b: State)
    requires Ext(a, b)
    ensures a.log <= b.log
  {
  }

  lemma {:induction false} ExtTrans(a: State, b: State, c: State)
    requires Ext(a, b) && Ext(b, c)
    ensures Ext(a, c)
  {
    hide Proper;
    forall i | |a.log| <= i < |c.log|
      ensures c.log[i].dst !in a.seen && c.log[i].dst in c.seen && Proper(c.log[i])
    {
      if i < |b.log| { assert c.log[i] == b.log[i]; }
    }
    forall i, j | |a.log| <= i < j < |c.log| ensures c.log[i].dst != c.log[j].dst {
      if i < |b.log| { assert c.log[i] == b.log[i]; }
      if j < |b.log| { assert c.log[j] == b.log[j]; }
    }
  }

  lemma ExtSee(a: State, p: Path)
    ensures Ext(a, See(a, p))
  {
  }

  /** The library names do not matter here. */
  lemma ExtLibs(a: State, b: State, libs: set<Bytes>)
    requires Ext(a, b)
    ensures Ext(a, b.(libs := libs))
  {
    hide Proper;
  }

  /** Archive, then see. */
  lemma {:induction false} ExtPut(a: State, dst: Path, call: Call, origin: Origin)
    requires dst !in a.seen && call.path == Render(dst) && !ByAutorun(origin)
    ensures var put := Put(a, dst, call, origin);
            && Ext(a, See(put.st, dst))
            && (put.out.Err? ==> put.st == a)
  {
    hide Accepted, Render;
  }

  /** See, archive the parents, then archive. */
  lemma {:induction false} ExtSeePut(a: State, mid: State, dst: Path, call: Call, origin: Origin)
    requires dst !in a.seen && call.path == Render(dst) && Ext(See(a, dst), mid) && !ByAutorun(origin)
    ensures Ext(a, Put(mid, dst, call, origin).st)
  {
    hide Accepted, Render;
    var b := Put(mid, dst, call, origin).st;
    forall i | |a.log| <= i < |b.log| ensures b.log[i].dst !in a.seen && b.log[i].dst in b.seen && Proper(b.log[i]) {
      if i < |mid.log| { assert b.log[i] == mid.log[i]; }
    }
    forall i, j | |a.log| <= i < j < |b.log| ensures b.log[i].dst != b.log[j].dst {
      assert b.log[i] == mid.log[i];
      if j < |mid.log| { assert b.log[j] == mid.log[j]; }
    }
  }

  // ---- parent directories -------------------------------------------------

  lemma {:induction false} DirsFromExt(st: State, here: seq<Bytes>, comps: seq<Bytes>, md: Md)
    requires DOT_DOT !in here
    ensures var r := DirsFrom(st, here, comps, md);
            && Ext(st, r.st) && r.st.libs == st.libs
            && (forall q :: q in r.st.seen && q !in st.seen ==> q.absolute && Plain(q) && |q.comps| <= |here| + |comps|)
    decreases |comps|
  {
    hide Ext, Put, See, ParentMd, Render;
    ExtSelf(st);
    if comps != [] {
      if comps[0] == DOT_DOT {
        if here != [] { DirsFromExt(st, here[..|here| - 1], comps[1..], md); }
      } else {
        var next := here + [comps[0]];
        var p := Path(true, next);
        if p in st.seen {
          DirsFromExt(st, next, comps[1..], md);
        } else {
          var put := Put(See(st, p), p, PathCall(Render(p), md), Mocked);
          NewDir(st, p, md);
          if put.out.Ok? {
            DirsFromExt(put.st, next, comps[1..], md);
            ExtTrans(st, put.st, DirsFrom(put.st, next, comps[1..], md).st);
          }
        }
      }
    }
  }

  lemma {:induction false} NewDir(st: State, p: Path, md: Md)
    requires p !in st.seen
    ensures var put := Put(See(st, p), p, PathCall(Render(p), md), Mocked);
            && Ext(st, put.st) && put.st.libs == st.libs && put.st.seen == st.seen + {p}
            && put.st.log == st.log + (if put.out.Ok? then [LogEntry(p, PathCall(Render(p), md), Mocked)] else [])
  {
    hide Ext, Accepted, Render;
    ExtSelf(See(st, p));
    ExtSeePut(st, See(st, p), p, PathCall(Render(p), md), Mocked);
    assert st.log + [] == st.log;
  }

  /** Archiving parents never archives or sees the child itself. */
  lemma {:induction false} DirsExt(st: State, dst: Path, md: Md)
    ensures var r := Dirs(st, Parent(dst), md);
            && Ext(st, r.st) && r.st.libs == st.libs
            && (dst !in st.seen ==> dst !in r.st.seen)
  {
    hide Ext, DirsFrom, ParentMd;
    ExtSelf(st);
    var path := Parent(dst);
    if path.Some? {
      DirsFromExt(st, [], path.value.comps, ParentMd(md));
      if dst !in st.seen && Plain(dst) {
        assert |dst.comps| > |path.value.comps|;
      }
    }
  }

  lemma {:induction false} PutUnderExt(st: State, dst: Path, md: Md, call: Call, origin: Origin)
    requires dst !in st.seen && call.path == Render(dst) && !ByAutorun(origin)
    ensures var r := PutUnder(st, dst, md, call, origin);
            Ext(st, r.st) && r.st.libs == st.libs && (r.out.Ok? ==> dst in r.st.seen)
  {
    hide Ext, Dirs, Accepted, Render;
    DirsExt(st, dst, md);
    var dirs := Dirs(st, Parent(dst), md);
    if dirs.out.Ok? {
      ExtPut(dirs.st, dst, call, origin);
      ExtTrans(st, dirs.st, See(Put(dirs.st, dst, call, origin).st, dst));
    }
  }

  // ---- the two worklists --------------------------------------------------

  lemma {:induction false} ElfStepExt(fs: Fs, st: State, ent: Ent)
    ensures Ext(st, ElfStep(fs, st, ent).st)
  {
    hide Ext, Locate, MdFrom, ElfArchive;
    ExtSelf(st);
    var path := Locate(fs, ent);
    if path.Some? && DstOf(ent, path.value) !in st.seen {
      var md := MdFrom(CUT_PROPS, fs.nodes[path.value].stat);
      if md.Some? { ElfArchiveExt(st, ent, path.value, fs.nodes[path.value], md.value); }
    }
  }

  lemma {:induction false} ElfArchiveExt(st: State, ent: Ent, path: Path, node: Node, md: Md)
    requires DstOf(ent, path) !in st.seen
    ensures Ext(st, ElfArchive(st, ent, path, node, md).st)
  {
    hide Ext, Dirs, PlanElf, Accepted, Render, DstOf;
    var dst := DstOf(ent, path);
    DirsExt(st, dst, md);
    var dirs := Dirs(st, Parent(dst), md);
    if dirs.out.Ok? {
      var plan := PlanElf(dirs.st, ent, path, node, md);
      if plan.Plan? {
        PlanNames(dirs.st, ent, path, node, md);
        var mid := dirs.st.(libs := plan.libs);
        ExtLibs(st, dirs.st, plan.libs);
        ExtPut(mid, dst, plan.call, Scanned(path, IsLib(ent)));
        ExtTrans(st, mid, See(Put(mid, dst, plan.call, Scanned(path, IsLib(ent))).st, dst));
      }
    }
  }

  lemma PlanNames(st: State, ent: Ent, path: Path, node: Node, md: Md)
    ensures var plan := PlanElf(st, ent, path, node, md);
            plan.Plan? ==> plan.call.path == Render(DstOf(ent, path))
  {
    hide ElfDeps, Executable, Sort, Children;
  }

  lemma {:induction false} DataRoundExt(fs: Fs, st: State, item: Item)
    ensures Ext(st, DataRound(fs, st, item).st)
  {
    hide Ext, Dirs, MdFrom, Accepted, Render, Sort, ChildItems, DataCall;
    ExtSelf(st);
    if item.src in fs.nodes && item.dst !in st.seen {
      var node := fs.nodes[item.src];
      var md := MdFrom(CUT_PROPS, node.stat);
      if md.Some? {
        var seen := See(st, item.dst);
        ExtSee(st, item.dst);
        ExtSelf(seen);
        DirsExt(seen, item.dst, md.value);
        var dirs := if item.ignoreParent then Result(seen, Ok) else Dirs(seen, Parent(item.dst), md.value);
        ExtTrans(st, seen, dirs.st);
        DataCallPath(item.dst, node, md.value);
        ExtSeePut(st, dirs.st, item.dst, DataCall(item.dst, node, md.value), Copied(item.src));
      }
    }
  }

  lemma DataCallPath(dst: Path, node: Node, md: Md)
    ensures DataCall(dst, node, md).path == Render(dst)
  {
  }

  // ---- what it means for a whole run --------------------------------------

  /** No destination is archived twice, and every archived one is seen. */
  ghost predicate Once(st: State) {
    && (forall i :: 0 <= i < |st.log| ==> st.log[i].dst in st.seen && Proper(st.log[i]))
    && (forall i, j :: 0 <= i < j < |st.log| ==> st.log[i].dst != st.log[j].dst)
  }

  lemma {:induction false} OnceKept(a: State, b: State)
    requires Once(a) && Ext(a, b)
    ensures Once(b)
  {
    hide Proper;
    forall i | 0 <= i < |b.log| ensures b.log[i].dst in b.seen && Proper(b.log[i]) {
      if i < |a.log| { assert b.log[i] == a.log[i]; }
    }
    forall i, j | 0 <= i < j < |b.log| ensures b.log[i].dst != b.log[j].dst {
      if i < |a.log| { assert b.log[i] == a.log[i]; }
      if j < |a.log| { assert b.log[j] == a.log[j]; }
    }
  }
}
