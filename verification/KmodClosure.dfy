/** Module closure: after a run of module requests, every requested module and all
    of its hard dependencies are archived. */
module KmodClosure {
  import opened Newc
  import opened Cpio
  import opened HostFs
  import opened Gather
  import opened GatherOnce
  import opened GatherParents
  import opened ElfWorklist
  import opened KmodIndex
  import opened KmodGather

  /** The archive has this module file. */
  predicate Has(k: KmodCtx, st: State, rel: Bytes) { Archived(st.log, |st.log|, KmodDst(k, rel)) }

  predicate LoadableModule(k: KmodCtx, m: Kmod) { m in k.index.modules.Values && !m.builtin }

  predicate HasAll(k: KmodCtx, st: State, m: Kmod) {
    Has(k, st, m.relPath) && forall i :: 0 <= i < |m.hard| ==> Has(k, st, m.hard[i])
  }

  /** modules.dep lists, with every module, the dependencies of its dependencies. */
  ghost predicate TransitivelyClosed(k: KmodCtx) {
    forall r, m, d :: LoadableModule(k, r) && LoadableModule(k, m) && d in r.hard
                      && KmodDst(k, m.relPath) == KmodDst(k, d)
      ==> forall i :: 0 <= i < |m.hard| ==> m.hard[i] in r.hard
  }

  /** Module paths are free of "..", no two modules share one, and none of them is
      a directory on the way to another. */
  ghost predicate Layout(k: KmodCtx) {
    && (forall r, m, x :: LoadableModule(k, r) && LoadableModule(k, m) && (x == r.relPath || x in r.hard)
          ==> Apart(KmodDst(k, m.relPath), KmodDst(k, x)))
    && (forall r, m ::
          (LoadableModule(k, r) && LoadableModule(k, m) && KmodDst(k, m.relPath) == KmodDst(k, r.relPath)) ==> m == r)
  }

  predicate Apart(p: Path, q: Path) { Plain(q) && (Above(p, q) ==> p == q) }

  // ---- what archiving parents can see -------------------------------------

  lemma {:induction false} DirsFromAbove(st: State, here: seq<Bytes>, comps: seq<Bytes>, md: Md)
    requires DOT_DOT !in here && DOT_DOT !in comps
    ensures forall q :: q in DirsFrom(st, here, comps, md).st.seen && q !in st.seen ==> Above(q, Path(true, here + comps))
    decreases |comps|
  {
    hide Accepted, Render;
    if comps != [] {
      var next := here + [comps[0]];
      var p := Path(true, next);
      assert next + comps[1..] == here + comps;
      if p in st.seen {
        DirsFromAbove(st, next, comps[1..], md);
      } else {
        var put := Put(See(st, p), p, PathCall(Render(p), md), Mocked);
        if put.out.Ok? { DirsFromAbove(put.st, next, comps[1..], md); }
      }
    }
  }

  /** Besides its own destination, a module brings only directories above it. */
  lemma {:induction false} OneAbove(fs: Fs, k: KmodCtx, st: State, rel: Bytes)
    requires Plain(KmodDst(k, rel))
    ensures forall q :: q in KmodOne(fs, k, st, rel).st.seen && q !in st.seen ==>
                        q == KmodDst(k, rel) || Above(q, KmodDst(k, rel))
  {
    hide DirsFrom, MdFrom, Accepted, Render, KmodDst, Join, ParentMd, Dangling;
    var dst := KmodDst(k, rel);
    var src := Join(k.root, rel);
    if dst !in st.seen && src in fs.nodes && MdFrom(CUT_PROPS, fs.nodes[src].stat).Some? {
      var md := MdFrom(CUT_PROPS, fs.nodes[src].stat).value;
      DirsAbove(See(st, dst), dst, md);
    }
  }

  lemma {:induction false} DirsAbove(st: State, dst: Path, md: Md)
    requires Plain(dst)
    ensures forall q :: q in Dirs(st, Parent(dst), md).st.seen && q !in st.seen ==> Above(q, dst)
  {
    hide DirsFrom, ParentMd;
    var path := Parent(dst);
    if path.Some? && path.value.absolute {
      assert forall c :: c in path.value.comps ==> c in dst.comps;
      DirsFromAbove(st, [], path.value.comps, ParentMd(md));
      assert [] + path.value.comps == path.value.comps;
    }
  }

  /** Nothing seen is left unarchived, except what is listed as loose. */
  ghost predicate NoPhantoms(st: State, loose: set<Path>) {
    forall q :: q in st.seen ==> Archived(st.log, |st.log|, q) || q in loose
  }

  lemma {:induction false} DirsFromNoPhantoms(st: State, here: seq<Bytes>, comps: seq<Bytes>, md: Md, loose: set<Path>)
    requires NoPhantoms(st, loose) && DirsFrom(st, here, comps, md).out.Ok?
    ensures NoPhantoms(DirsFrom(st, here, comps, md).st, loose)
    decreases |comps|
  {
    hide Accepted, Render, Archived, NoPhantoms;
    if comps != [] {
      if comps[0] == DOT_DOT {
        DirsFromNoPhantoms(st, here[..|here| - 1], comps[1..], md, loose);
      } else {
        var next := here + [comps[0]];
        var p := Path(true, next);
        if p in st.seen {
          DirsFromNoPhantoms(st, next, comps[1..], md, loose);
        } else {
          var call := PathCall(Render(p), md);
          SeenAndPut(st, p, call, Mocked, loose);
          DirsFromNoPhantoms(Put(See(st, p), p, call, Mocked).st, next, comps[1..], md, loose);
        }
      }
    }
  }

  /** A path seen and archived. */
  lemma {:induction false} SeenAndPut(st: State, p: Path, call: Call, origin: Origin, loose: set<Path>)
    requires NoPhantoms(st, loose) && Put(See(st, p), p, call, origin).out.Ok?
    ensures NoPhantoms(Put(See(st, p), p, call, origin).st, loose)
  {
    hide Accepted;
    var b := Put(See(st, p), p, call, origin).st;
    forall q | q in b.seen ensures Archived(b.log, |b.log|, q) || q in loose {
      if q == p {
        assert b.log[|st.log|].dst == p;
      } else if q !in loose {
        ArchivedKept(st.log, b.log, |st.log|, |b.log|, q);
      }
    }
  }

  lemma {:induction false} OneNoPhantoms(fs: Fs, k: KmodCtx, st: State, rel: Bytes, loose: set<Path>)
    requires NoPhantoms(st, loose) && KmodOne(fs, k, st, rel).out.Ok?
    ensures NoPhantoms(KmodOne(fs, k, st, rel).st, loose)
  {
    hide MdFrom, Accepted, Render, KmodDst, Join, ParentMd, Dangling, NoPhantoms, DirsFrom, Ext;
    var dst := KmodDst(k, rel);
    var src := Join(k.root, rel);
    if dst !in st.seen {
      var md := MdFrom(CUT_PROPS, fs.nodes[src].stat).value;
      var call := FileCall(Render(dst), md, fs.nodes[src].content);
      DirsSee(st, dst, md);
      var dirs := Dirs(st, Parent(dst), md);
      if Parent(dst).Some? && Parent(dst).value !in st.seen {
        DirsFromNoPhantoms(st, [], Parent(dst).value.comps, ParentMd(md), loose);
      }
      SeenAndPut(dirs.st, dst, call, Copied(src), loose);
    }
  }

  // ---- hard dependencies --------------------------------------------------

  lemma {:induction false} HasKept(k: KmodCtx, a: State, b: State, rel: Bytes)
    requires Ext(a, b) && Has(k, a, rel)
    ensures Has(k, b, rel)
  {
    hide Proper, KmodDst;
    ArchivedKept(a.log, b.log, |a.log|, |b.log|, KmodDst(k, rel));
  }

  lemma {:induction false} HasAllKept(k: KmodCtx, a: State, b: State, m: Kmod)
    requires Ext(a, b) && HasAll(k, a, m)
    ensures HasAll(k, b, m)
  {
    hide Ext, Has;
    HasKept(k, a, b, m.relPath);
    forall i | 0 <= i < |m.hard| ensures Has(k, b, m.hard[i]) { HasKept(k, a, b, m.hard[i]); }
  }

  /** Seen and not loose means archived. */
  lemma OneHas(fs: Fs, k: KmodCtx, st: State, rel: Bytes, loose: set<Path>)
    requires NoPhantoms(st, loose) && KmodDst(k, rel) !in loose && KmodOne(fs, k, st, rel).out.Ok?
    ensures Has(k, KmodOne(fs, k, st, rel).st, rel)
  {
    hide KmodPath, Archived, KmodDst;
    KmodOneSound(fs, k, st, rel);
  }

  ghost predicate NotLoose(k: KmodCtx, rels: seq<Bytes>, loose: set<Path>) {
    forall i :: 0 <= i < |rels| ==> KmodDst(k, rels[i]) !in loose && Plain(KmodDst(k, rels[i]))
  }

  /** At, or on the way to, one of these module files. */
  ghost predicate OnWay(k: KmodCtx, rels: seq<Bytes>, q: Path) {
    exists i :: 0 <= i < |rels| && At(KmodDst(k, rels[i]), q)
  }

  predicate At(dst: Path, q: Path) { q == dst || Above(q, dst) }

  lemma {:induction false} OnWayLater(k: KmodCtx, rels: seq<Bytes>, q: Path)
    requires rels != [] && (At(KmodDst(k, rels[0]), q) || OnWay(k, rels[1..], q))
    ensures OnWay(k, rels, q)
  {
    hide At, KmodDst;
    if OnWay(k, rels[1..], q) {
      var i :| 0 <= i < |rels[1..]| && At(KmodDst(k, rels[1..][i]), q);
      assert rels[1..][i] == rels[i + 1];
    }
  }

  lemma {:induction false} HardHas(fs: Fs, k: KmodCtx, st: State, deps: seq<Bytes>, loose: set<Path>)
    requires NoPhantoms(st, loose) && NotLoose(k, deps, loose) && KmodHard(fs, k, st, deps).out.Ok?
    ensures var r := KmodHard(fs, k, st, deps);
            && NoPhantoms(r.st, loose)
            && (forall i :: 0 <= i < |deps| ==> Has(k, r.st, deps[i]))
            && (forall q :: q in r.st.seen && q !in st.seen ==> OnWay(k, deps, q))
    decreases |deps|
  {
    hide NoPhantoms, KmodOne, Has, OnWay, KmodDst, Ext, Calm, ParentsFirst;
    if deps != [] {
      var one := KmodOne(fs, k, st, deps[0]);
      OneNoPhantoms(fs, k, st, deps[0], loose);
      OneHas(fs, k, st, deps[0], loose);
      OneAbove(fs, k, st, deps[0]);
      NotLooseRest(k, deps, loose);
      HardHas(fs, k, one.st, deps[1..], loose);
      KmodHardSound(fs, k, one.st, deps[1..]);
      var r := KmodHard(fs, k, one.st, deps[1..]);
      HasKept(k, one.st, r.st, deps[0]);
      forall i | 0 <= i < |deps| ensures Has(k, r.st, deps[i]) {
        if i > 0 { assert deps[i] == deps[1..][i - 1]; }
      }
      forall q | q in r.st.seen && q !in st.seen ensures OnWay(k, deps, q) {
        if q in one.st.seen { assert At(KmodDst(k, deps[0]), q); }
        OnWayLater(k, deps, q);
      }
    }
  }

  lemma NotLooseRest(k: KmodCtx, rels: seq<Bytes>, loose: set<Path>)
    requires NotLoose(k, rels, loose) && rels != []
    ensures NotLoose(k, rels[1..], loose)
    ensures Plain(KmodDst(k, rels[0])) && KmodDst(k, rels[0]) !in loose
  {
    hide KmodDst;
  }

  // ---- one request --------------------------------------------------------

  /** Everything seen that is not loose is complete. */
  ghost predicate Closed(k: KmodCtx, st: State, loose: set<Path>) {
    && NoPhantoms(st, loose)
    && forall m :: LoadableModule(k, m) && KmodDst(k, m.relPath) in st.seen && KmodDst(k, m.relPath) !in loose
         ==> HasAll(k, st, m)
  }

  /** The files a module needs to be loaded. */
  function Needs(m: Kmod): seq<Bytes> { [m.relPath] + m.hard }

  lemma FindIsModule(k: KmodCtx, name: Bytes)
    ensures FindModule(k.index, name).Some? ==> FindModule(k.index, name).value in k.index.modules.Values
  {
    FindModuleIs(k.index, name);
  }

  /** The state before soft dependencies are tried. */
  function Core(fs: Fs, k: KmodCtx, st: State, m: Kmod): Result {
    var own := KmodOne(fs, k, st, m.relPath);
    if own.out.Err? then own else KmodHard(fs, k, own.st, m.hard)
  }

  /** A module and its hard dependencies are one list of needed files. */
  lemma {:induction false} CoreIsHard(fs: Fs, k: KmodCtx, st: State, m: Kmod)
    ensures Core(fs, k, st, m) == KmodHard(fs, k, st, Needs(m))
  {
    hide KmodOne;
    assert Needs(m)[0] == m.relPath && Needs(m)[1..] == m.hard;
  }

  lemma {:induction false} CoreCloses(fs: Fs, k: KmodCtx, st: State, m: Kmod, loose: set<Path>)
    requires TransitivelyClosed(k) && Layout(k) && Closed(k, st, loose) && LoadableModule(k, m)
    requires NotLoose(k, Needs(m), loose) && Core(fs, k, st, m).out.Ok?
    ensures var r := Core(fs, k, st, m); Closed(k, r.st, loose) && HasAll(k, r.st, m)
  {
    hide NoPhantoms, KmodOne, KmodHard, Has, KmodDst, Ext, Calm, ParentsFirst, Core, TransitivelyClosed, Layout, NotLoose, LoadableModule, OnWay;
    var r := Core(fs, k, st, m);
    CoreIsHard(fs, k, st, m);
    HardHas(fs, k, st, Needs(m), loose);
    KmodHardSound(fs, k, st, Needs(m));
    NeedsAll(k, r.st, m);
    forall x | LoadableModule(k, x) && KmodDst(k, x.relPath) in r.st.seen && KmodDst(k, x.relPath) !in loose
      ensures HasAll(k, r.st, x)
    {
      if KmodDst(k, x.relPath) in st.seen {
        HasAllKept(k, st, r.st, x);
      } else {
        NewlySeen(k, r.st, m, x);
      }
    }
  }

  lemma NeedsAll(k: KmodCtx, st: State, m: Kmod)
    requires forall i :: 0 <= i < |Needs(m)| ==> Has(k, st, Needs(m)[i])
    ensures HasAll(k, st, m)
    ensures forall x :: x in m.hard ==> Has(k, st, x)
  {
    hide Has;
    assert Needs(m)[0] == m.relPath;
    assert forall i :: 0 <= i < |m.hard| ==> Needs(m)[i + 1] == m.hard[i];
  }

  /** A module that came in with `m` is `m` itself or one of its hard dependencies,
      whose own dependencies `m` has as well. */
  lemma {:induction false} NewlySeen(k: KmodCtx, st: State, m: Kmod, x: Kmod)
    requires TransitivelyClosed(k) && Layout(k) && LoadableModule(k, m) && LoadableModule(k, x)
    requires OnWay(k, Needs(m), KmodDst(k, x.relPath))
    requires HasAll(k, st, m) && forall d :: d in m.hard ==> Has(k, st, d)
    ensures HasAll(k, st, x)
  {
    hide Has, KmodDst, Plain, LoadableModule;
    var p := KmodDst(k, x.relPath);
    var i :| 0 <= i < |Needs(m)| && At(KmodDst(k, Needs(m)[i]), p);
    var d := Needs(m)[i];
    assert d == m.relPath || d in m.hard;
    assert Apart(p, KmodDst(k, d));
    assert p == KmodDst(k, d);
    HasSame(k, st, d, x.relPath);
    if d in m.hard {
      forall j | 0 <= j < |x.hard| ensures Has(k, st, x.hard[j]) { assert x.hard[j] in m.hard; }
    } else {
      assert x == m;
    }
  }

  lemma HasSame(k: KmodCtx, st: State, a: Bytes, b: Bytes)
    requires Has(k, st, a) && KmodDst(k, a) == KmodDst(k, b)
    ensures Has(k, st, b)
  {
  }

  /** Paths that a request first saw while trying soft and weak dependencies. */
  function LooseAfter(fs: Fs, k: KmodCtx, st: State, name: Bytes, loose: set<Path>): set<Path>
  {
    var found := FindModule(k.index, name);
    if found.None? || found.value.builtin || KmodDst(k, found.value.relPath) in st.seen then loose
    else loose + (KmodRequest(fs, k, st, name).st.seen - Core(fs, k, st, found.value).st.seen)
  }

  lemma {:induction false} RequestCloses(fs: Fs, k: KmodCtx, st: State, name: Bytes, loose: set<Path>)
    requires TransitivelyClosed(k) && Layout(k) && Closed(k, st, loose)
    requires var found := FindModule(k.index, name);
             found.Some? && !found.value.builtin ==> NotLoose(k, Needs(found.value), loose)
    requires KmodRequest(fs, k, st, name).out.Ok?
    ensures var r := KmodRequest(fs, k, st, name);
            && Closed(k, r.st, LooseAfter(fs, k, st, name, loose))
            && var m := FindModule(k.index, name).value;
               !m.builtin ==> HasAll(k, r.st, m)
  {
    hide KmodOne, KmodHard, Has, HasAll, KmodDst, Ext, Calm, ParentsFirst, TransitivelyClosed, Layout, Closed, FindModule, KmodTry, Loadable;
    var m := FindModule(k.index, name).value;
    FindIsModule(k, name);
    if !m.builtin {
      if KmodDst(k, m.relPath) in st.seen {
        SeenCloses(k, st, m, loose);
      } else {
        var core := Core(fs, k, st, m);
        CoreCloses(fs, k, st, m, loose);
        var rels := Loadable(k.index, SoftNames(m));
        KmodTrySound(fs, k, core.st, rels);
        var r := KmodTry(fs, k, core.st, rels);
        LoosePhase(k, core.st, r.st, loose);
        HasAllKept(k, core.st, r.st, m);
      }
    }
  }

  lemma SeenCloses(k: KmodCtx, st: State, m: Kmod, loose: set<Path>)
    requires Closed(k, st, loose) && LoadableModule(k, m) && KmodDst(k, m.relPath) in st.seen
    requires NotLoose(k, Needs(m), loose)
    ensures HasAll(k, st, m)
  {
    hide HasAll, KmodDst, NoPhantoms, LoadableModule;
    assert Needs(m)[0] == m.relPath;
  }

  /** Whatever the soft phase sees is loose, so nothing new has to be complete. */
  lemma {:induction false} LoosePhase(k: KmodCtx, a: State, b: State, loose: set<Path>)
    requires Closed(k, a, loose) && Ext(a, b)
    ensures Closed(k, b, loose + (b.seen - a.seen))
  {
    hide HasAll, KmodDst, Archived, LoadableModule, Proper;
    var more := loose + (b.seen - a.seen);
    forall q | q in b.seen ensures Archived(b.log, |b.log|, q) || q in more {
      if q in a.seen && q !in loose { ArchivedKept(a.log, b.log, |a.log|, |b.log|, q); }
    }
    forall m | LoadableModule(k, m) && KmodDst(k, m.relPath) in b.seen && KmodDst(k, m.relPath) !in more
      ensures HasAll(k, b, m)
    {
      HasAllKept(k, a, b, m);
    }
  }

  lemma RequestFinds(fs: Fs, k: KmodCtx, st: State, name: Bytes)
    requires KmodRequest(fs, k, st, name).out.Ok?
    ensures FindModule(k.index, name).Some?
  {
  }

  // ---- when a successful request brings its module ------------------------

  /** A module file, once archived, leaves no new path seen and unarchived. */
  lemma {:induction false} OnePhantoms(fs: Fs, k: KmodCtx, st: State, rel: Bytes, q: Path)
    requires KmodOne(fs, k, st, rel).out.Ok?
    ensures Phantom(KmodOne(fs, k, st, rel).st, q) <==> Phantom(st, q)
  {
    hide KmodOne, Archived, Ext, Calm, ParentsFirst;
    var loose := set p | p in st.seen && Phantom(st, p);
    OneNoPhantoms(fs, k, st, rel, loose);
    KmodOneSound(fs, k, st, rel);
    if Phantom(st, q) { PhantomKept(st, KmodOne(fs, k, st, rel).st, q); }
  }

  /** Each needed file is archived if and only if it was no phantom before. */
  lemma {:induction false} HardExact(fs: Fs, k: KmodCtx, st: State, rels: seq<Bytes>)
    requires KmodHard(fs, k, st, rels).out.Ok?
    ensures forall i :: 0 <= i < |rels| ==> (Has(k, KmodHard(fs, k, st, rels).st, rels[i]) <==> !Phantom(st, KmodDst(k, rels[i])))
    decreases |rels|
  {
    hide KmodOne, KmodDst, Ext, Calm, ParentsFirst, Archived, Phantom;
    if rels != [] {
      var r1 := KmodOne(fs, k, st, rels[0]);
      var r := KmodHard(fs, k, r1.st, rels[1..]);
      HardExact(fs, k, r1.st, rels[1..]);
      OneExact(fs, k, st, rels[0]);
      KmodHardSound(fs, k, r1.st, rels[1..]);
      StaysAsItIs(k, r1.st, r.st, rels[0]);
      forall i | 0 <= i < |rels| ensures Has(k, r.st, rels[i]) <==> !Phantom(st, KmodDst(k, rels[i])) {
        OnePhantoms(fs, k, st, rels[0], KmodDst(k, rels[i]));
        if i > 0 { assert rels[i] == rels[1..][i - 1]; }
      }
    }
  }

  lemma {:induction false} OneExact(fs: Fs, k: KmodCtx, st: State, rel: Bytes)
    requires KmodOne(fs, k, st, rel).out.Ok?
    ensures Has(k, KmodOne(fs, k, st, rel).st, rel) <==> !Phantom(st, KmodDst(k, rel))
    ensures KmodDst(k, rel) in KmodOne(fs, k, st, rel).st.seen
  {
    hide KmodPath, Archived, KmodDst, Ext, Calm, ParentsFirst;
    KmodOneSound(fs, k, st, rel);
  }

  /** What is seen stays archived or a phantom. */
  lemma {:induction false} StaysAsItIs(k: KmodCtx, a: State, b: State, rel: Bytes)
    requires Ext(a, b) && KmodDst(k, rel) in a.seen
    ensures Has(k, b, rel) <==> Has(k, a, rel)
  {
    hide Archived, KmodDst, Ext;
    if Has(k, a, rel) {
      HasKept(k, a, b, rel);
    } else {
      PhantomKept(a, b, KmodDst(k, rel));
    }
  }

  /** Everything a request needs is there afterwards if and only if none of it was a
      phantom before; a module seen before is not looked at again, so then it is as
      complete as it was. */
  ghost predicate Complete(k: KmodCtx, st: State, m: Kmod) {
    if KmodDst(k, m.relPath) in st.seen then HasAll(k, st, m)
    else forall i :: 0 <= i < |m.hard| ==> !Phantom(st, KmodDst(k, m.hard[i]))
  }

  /** Exactly when a successful request means that the module is archived, and that
      it is archived with all its hard dependencies. */
  lemma {:induction false} RequestExact(fs: Fs, k: KmodCtx, st: State, name: Bytes)
    requires KmodRequest(fs, k, st, name).out.Ok? && !FindModule(k.index, name).value.builtin
    ensures var r := KmodRequest(fs, k, st, name);
            var m := FindModule(k.index, name).value;
            && KmodDst(k, m.relPath) in r.st.seen
            && (Has(k, r.st, m.relPath) <==> !Phantom(st, KmodDst(k, m.relPath)))
            && (HasAll(k, r.st, m) <==> Complete(k, st, m))
            && (KmodDst(k, m.relPath) !in st.seen ==> forall i :: 0 <= i < |m.hard| ==> KmodDst(k, m.hard[i]) in r.st.seen)
  {
    hide KmodOne, KmodHard, KmodTry, Archived, KmodDst, Ext, Calm, ParentsFirst, FindModule, Loadable;
    var m := FindModule(k.index, name).value;
    if KmodDst(k, m.relPath) !in st.seen {
      var core := Core(fs, k, st, m);
      CoreIsHard(fs, k, st, m);
      HardExact(fs, k, st, Needs(m));
      HardSeen(fs, k, st, Needs(m));
      assert Needs(m)[0] == m.relPath && forall i :: 0 <= i < |m.hard| ==> Needs(m)[i + 1] == m.hard[i];
      var rels := Loadable(k.index, SoftNames(m));
      KmodTrySound(fs, k, core.st, rels);
      var r := KmodTry(fs, k, core.st, rels);
      ExtSeen(core.st, r.st);
      forall i | 0 <= i < |Needs(m)| ensures Has(k, r.st, Needs(m)[i]) <==> Has(k, core.st, Needs(m)[i]) {
        StaysAsItIs(k, core.st, r.st, Needs(m)[i]);
      }
    }
  }

  lemma {:induction false} HardSeen(fs: Fs, k: KmodCtx, st: State, rels: seq<Bytes>)
    requires KmodHard(fs, k, st, rels).out.Ok?
    ensures forall i :: 0 <= i < |rels| ==> KmodDst(k, rels[i]) in KmodHard(fs, k, st, rels).st.seen
    decreases |rels|
  {
    hide KmodOne, KmodDst, Ext, Calm, ParentsFirst;
    if rels != [] {
      var r1 := KmodOne(fs, k, st, rels[0]);
      OneExact(fs, k, st, rels[0]);
      HardSeen(fs, k, r1.st, rels[1..]);
      KmodHardSound(fs, k, r1.st, rels[1..]);
      ExtSeen(r1.st, KmodHard(fs, k, r1.st, rels[1..]).st);
      forall i | 0 <= i < |rels| ensures KmodDst(k, rels[i]) in KmodHard(fs, k, st, rels).st.seen {
        if i > 0 { assert rels[i] == rels[1..][i - 1]; }
      }
    }
  }

  // ---- soft and weak dependencies -----------------------------------------

  /** The host has the module file. */
  predicate HostHas(fs: Fs, k: KmodCtx, rel: Bytes) {
    var src := Join(k.root, rel);
    src in fs.nodes && !(fs.nodes[src].stat.mode / 4096 % 16 == 10 && fs.nodes[src].canon.None?)
  }

  /** Archiving parents never reports a missing file. */
  lemma {:induction false} DirsNeverMiss(st: State, here: seq<Bytes>, comps: seq<Bytes>, md: Md)
    ensures DirsFrom(st, here, comps, md).out != Err(NotFound)
    decreases |comps|
  {
    hide Accepted, Render;
    if comps != [] {
      if comps[0] == DOT_DOT {
        if here != [] { DirsNeverMiss(st, here[..|here| - 1], comps[1..], md); }
      } else {
        var next := here + [comps[0]];
        var p := Path(true, next);
        DirsNeverMiss(st, next, comps[1..], md);
        DirsNeverMiss(Put(See(st, p), p, PathCall(Render(p), md), Mocked).st, next, comps[1..], md);
      }
    }
  }

  /** A file that turns out to be missing leaves one phantom, its own. */
  lemma {:induction false} MissPhantom(fs: Fs, k: KmodCtx, st: State, rel: Bytes, q: Path)
    requires KmodOne(fs, k, st, rel).out == Err(NotFound)
    ensures !HostHas(fs, k, rel)
    ensures Phantom(KmodOne(fs, k, st, rel).st, q) ==> Phantom(st, q) || q == KmodDst(k, rel)
  {
    hide MdFrom, Accepted, Render, KmodDst, Join, ParentMd, DirsFrom, Archived;
    var dst, src := KmodDst(k, rel), Join(k.root, rel);
    var loose := set p | p in st.seen && Phantom(st, p);
    assert NoPhantoms(st, loose);
    if src in fs.nodes {
      var md := MdFrom(CUT_PROPS, fs.nodes[src].stat).value;
      DirsSee(st, dst, md);
      var dirs := Dirs(st, Parent(dst), md);
      if Parent(dst).Some? {
        DirsNeverMiss(st, [], Parent(dst).value.comps, ParentMd(md));
        if Parent(dst).value !in st.seen { DirsFromNoPhantoms(st, [], Parent(dst).value.comps, ParentMd(md), loose); }
      }
      assert NoPhantoms(dirs.st, loose);
    }
  }

  lemma SameSource(k: KmodCtx, a: Bytes, b: Bytes)
    requires KmodDst(k, a) == KmodDst(k, b)
    ensures Join(k.root, a) == Join(k.root, b)
  {
    var n := |k.dstRoot.comps|;
    assert KmodDst(k, a).comps[n..] == KmodDst(k, b).comps[n..];
  }

  /** Trying files: each is seen afterwards, and archived if the host has it and it was
      no phantom before. */
  lemma {:induction false} TryArchives(fs: Fs, k: KmodCtx, st: State, rels: seq<Bytes>, i: nat)
    requires KmodTry(fs, k, st, rels).out.Ok? && i < |rels|
    ensures var r := KmodTry(fs, k, st, rels);
            && KmodDst(k, rels[i]) in r.st.seen
            && (HostHas(fs, k, rels[i]) && !Phantom(st, KmodDst(k, rels[i])) ==> Has(k, r.st, rels[i]))
    decreases |rels|
  {
    hide KmodOne, KmodDst, Ext, Calm, ParentsFirst, Archived, HostHas, Phantom;
    var r1 := KmodOne(fs, k, st, rels[0]);
    var r := KmodTry(fs, k, r1.st, rels[1..]);
    KmodOneSound(fs, k, st, rels[0]);
    KmodTrySound(fs, k, r1.st, rels[1..]);
    ExtSeen(r1.st, r.st);
    var q := KmodDst(k, rels[i]);
    if r1.out.Ok? {
      OneExact(fs, k, st, rels[0]);
      OnePhantoms(fs, k, st, rels[0], q);
    } else {
      var kind := r1.out.kind;
      assert kind == NotFound || kind == Other;
      MissPhantom(fs, k, st, rels[0], q);
      if q == KmodDst(k, rels[0]) {
        SameSource(k, rels[0], rels[i]);
        SameHost(fs, k, rels[0], rels[i]);
      }
    }
    if i == 0 {
      StaysAsItIs(k, r1.st, r.st, rels[0]);
    } else {
      TryArchives(fs, k, r1.st, rels[1..], i - 1);
    }
  }

  lemma SameHost(fs: Fs, k: KmodCtx, a: Bytes, b: Bytes)
    requires Join(k.root, a) == Join(k.root, b)
    ensures HostHas(fs, k, a) <==> HostHas(fs, k, b)
  {
  }

  lemma {:induction false} LoadableHas(k: KmodCtx, names: seq<Bytes>, j: nat) returns (i: nat)
    requires j < |names|
    requires FindModule(k.index, names[j]).Some? && !FindModule(k.index, names[j]).value.builtin
    ensures i < |Loadable(k.index, names)| && Loadable(k.index, names)[i] == FindModule(k.index, names[j]).value.relPath
    decreases |names|
  {
    hide FindModule;
    if j == 0 {
      i := 0;
    } else {
      i := LoadableHas(k, names[1..], j - 1);
      var m := FindModule(k.index, names[0]);
      if m.Some? && !m.value.builtin { i := i + 1; }
    }
  }

  /** A successful request for a module not seen before brings the files of its loadable
      soft and weak dependencies: all are seen, and those that the host has and that
      were no phantoms before are archived. */
  lemma {:induction false} RequestBringsSoft(fs: Fs, k: KmodCtx, st: State, name: Bytes, dep: Bytes)
    requires KmodRequest(fs, k, st, name).out.Ok? && !FindModule(k.index, name).value.builtin
    requires KmodDst(k, FindModule(k.index, name).value.relPath) !in st.seen
    requires var m := FindModule(k.index, name).value; dep in m.softPre || dep in m.softPost || dep in m.weak
    requires FindModule(k.index, dep).Some? && !FindModule(k.index, dep).value.builtin
    ensures var r := KmodRequest(fs, k, st, name);
            var rel := FindModule(k.index, dep).value.relPath;
            && KmodDst(k, rel) in r.st.seen
            && (HostHas(fs, k, rel) && !Phantom(st, KmodDst(k, rel)) ==> Has(k, r.st, rel))
  {
    hide KmodOne, KmodHard, KmodTry, Archived, KmodDst, FindModule, Loadable, HostHas, Phantom;
    var m := FindModule(k.index, name).value;
    var names := SoftNames(m);
    assert dep in names;
    var j :| 0 <= j < |names| && names[j] == dep;
    var i := LoadableHas(k, names, j);
    var core := Core(fs, k, st, m);
    CoreIsHard(fs, k, st, m);
    HardPhantoms(fs, k, st, Needs(m), KmodDst(k, FindModule(k.index, dep).value.relPath));
    TryArchives(fs, k, core.st, Loadable(k.index, names), i);
  }

  lemma {:induction false} HardPhantoms(fs: Fs, k: KmodCtx, st: State, rels: seq<Bytes>, q: Path)
    requires KmodHard(fs, k, st, rels).out.Ok?
    ensures Phantom(KmodHard(fs, k, st, rels).st, q) <==> Phantom(st, q)
    decreases |rels|
  {
    hide KmodOne, Phantom;
    if rels != [] {
      OnePhantoms(fs, k, st, rels[0], q);
      HardPhantoms(fs, k, KmodOne(fs, k, st, rels[0]).st, rels[1..], q);
    }
  }

  /** A new module file is archived from the module directory of the host. */
  lemma {:induction false} OneCopies(fs: Fs, k: KmodCtx, st: State, rel: Bytes)
    requires KmodOne(fs, k, st, rel).out.Ok? && KmodDst(k, rel) !in st.seen
    ensures var log := KmodOne(fs, k, st, rel).st.log;
            && log != []
            && log[|log| - 1].dst == Join(k.dstRoot, rel) && log[|log| - 1].origin == Copied(Join(k.root, rel))
  {
    hide Join, MdFrom, Dirs, Accepted, Render, Dangling;
  }

  /** The files of the module database. */
  function DbNames(): seq<string> {
    ["modules.dep", "modules.dep.bin", "modules.alias", "modules.alias.bin", "modules.softdep", "modules.weakdep",
     "modules.builtin", "modules.builtin.bin", "modules.builtin.alias.bin", "modules.builtin.modinfo",
     "modules.symbols", "modules.symbols.bin", "modules.order", "modules.fips", "modules.devname"]
  }

  lemma DbFileAt(i: nat)
    requires i < |DbNames()|
    ensures |ModuleDbFiles()| == |DbNames()| && ModuleDbFiles()[i] == Encode(DbNames()[i])
  {
    hide Encode;
  }

  /** Before the first request each of them is archived if the host has it. */
  lemma {:induction false} DbFilesArchived(fs: Fs, k: KmodCtx, st: State, i: nat)
    requires KmodInit(fs, k, st).out.Ok? && i < |DbNames()|
    ensures var rel := Encode(DbNames()[i]);
            HostHas(fs, k, rel) && !Phantom(st, KmodDst(k, rel)) ==> Has(k, KmodInit(fs, k, st).st, rel)
  {
    hide KmodTry, ModuleDbFiles, HostHas, Phantom, KmodDst, Archived, DbNames, Encode;
    DbFileAt(i);
    TryArchives(fs, k, st, ModuleDbFiles(), i);
  }

  /** The limit of these promises: a module whose file is missing stays seen. A
      request that failed for it, and was ignored as `try-kmod` does, makes the next
      request for it succeed without the module. */
  lemma {:induction false} MissingModuleLaterSucceeds(fs: Fs, k: KmodCtx, st: State, name: Bytes)
    requires var found := FindModule(k.index, name);
             && found.Some? && !found.value.builtin
             && KmodDst(k, found.value.relPath) !in st.seen
             && Join(k.root, found.value.relPath) !in fs.nodes
    ensures var r1 := KmodRequest(fs, k, st, name);
            var r2 := KmodRequest(fs, k, r1.st, name);
            && r1.out == Err(NotFound) && r2.out == Ok
            && r2.st.log == st.log
  {
    hide FindModule, Join, KmodHard, KmodTry, Loadable;
  }
}
