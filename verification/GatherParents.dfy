/** Parents before children: every ancestor of an archived path is archived before
    it, unless it or something between them was seen without being archived. */
module GatherParents {
  import opened Strings
  import opened Newc
  import opened Cpio
  import opened HostFs
  import opened Gather
  import opened GatherOnce

  predicate Archived(log: seq<LogEntry>, k: nat, p: Path)
    requires k <= |log|
  {
    exists i :: 0 <= i < k && log[i].dst == p
  }

  /** Seen without being archived: filtered paths, and files that were to be
      archived and turned out to be missing. */
  predicate Phantom(st: State, p: Path) { p in st.seen && !Archived(st.log, |st.log|, p) }

  function Up(x: Path, n: nat): Path
    requires n <= |x.comps|
  {
    Path(true, x.comps[..n])
  }

  predicate Above(a: Path, b: Path) { a.absolute && b.absolute && a.comps <= b.comps }

  /** A phantom path at or below `a` and above `x`. */
  ghost predicate Shadowed(st: State, a: Path, x: Path) {
    exists h :: Phantom(st, h) && Above(a, h) && Above(h, x) && h != x
  }

  /** Every proper ancestor of `x` but the root is among the first `k` entries, or
      shadowed. */
  ghost predicate Supported(st: State, k: nat, x: Path)
    requires k <= |st.log|
  {
    forall n :: 0 < n < |x.comps| ==> Archived(st.log, k, Up(x, n)) || Shadowed(st, Up(x, n), x)
  }

  predicate Ordinary(x: Path) { x.absolute && Plain(x) }

  ghost predicate ParentsFirst(st: State) {
    forall i :: 0 <= i < |st.log| && Ordinary(st.log[i].dst) ==> Supported(st, i, st.log[i].dst)
  }

  // ---- moving forward -----------------------------------------------------

  lemma {:induction false} PhantomKept(a: State, b: State, h: Path)
    requires Ext(a, b) && Phantom(a, h)
    ensures Phantom(b, h)
  {
    hide Proper;
  }

  lemma {:induction false} ArchivedKept(a: seq<LogEntry>, b: seq<LogEntry>, k: nat, m: nat, p: Path)
    requires k <= |a| && a <= b && k <= m <= |b| && Archived(a, k, p)
    ensures Archived(b, m, p)
  {
    var i :| 0 <= i < k && a[i].dst == p;
    assert b[i] == a[i];
  }

  lemma {:induction false} ShadowedKept(a: State, b: State, p: Path, x: Path)
    requires Ext(a, b) && Shadowed(a, p, x)
    ensures Shadowed(b, p, x)
  {
    hide Ext, Phantom;
    var h :| Phantom(a, h) && Above(p, h) && Above(h, x) && h != x;
    PhantomKept(a, b, h);
  }

  lemma {:induction false} SupportedKept(a: State, b: State, k: nat, m: nat, x: Path)
    requires Ext(a, b) && k <= |a.log| && k <= m <= |b.log| && Supported(a, k, x)
    ensures Supported(b, m, x)
  {
    hide Archived, Shadowed;
    assert a.log <= b.log;
    forall n | 0 < n < |x.comps| ensures Archived(b.log, m, Up(x, n)) || Shadowed(b, Up(x, n), x) {
      if Archived(a.log, k, Up(x, n)) {
        ArchivedKept(a.log, b.log, k, m, Up(x, n));
      } else {
        ShadowedKept(a, b, Up(x, n), x);
      }
    }
  }

  /** Nothing new archived: the property is kept. */
  lemma {:induction false} ParentsKept(a: State, b: State)
    requires ParentsFirst(a) && Ext(a, b) && b.log == a.log
    ensures ParentsFirst(b)
  {
    hide Supported, Ordinary, Proper;
    forall i | 0 <= i < |b.log| && Ordinary(b.log[i].dst) ensures Supported(b, i, b.log[i].dst) {
      SupportedKept(a, b, i, i, a.log[i].dst);
    }
  }

  /** One new entry, supported by what was there before. */
  lemma {:induction false} ParentsGrow(a: State, b: State)
    requires ParentsFirst(a) && Ext(a, b) && |b.log| == |a.log| + 1
    requires Ordinary(b.log[|a.log|].dst) ==> Supported(a, |a.log|, b.log[|a.log|].dst)
    ensures ParentsFirst(b)
  {
    hide Supported, Ordinary, Proper;
    forall i | 0 <= i < |b.log| && Ordinary(b.log[i].dst) ensures Supported(b, i, b.log[i].dst) {
      if i < |a.log| { assert b.log[i] == a.log[i]; }
      SupportedKept(a, b, i, i, b.log[i].dst);
    }
  }

  // ---- gather_archive_dirs ------------------------------------------------

  /** All prefixes of `here` are seen. */
  ghost predicate Walked(st: State, here: seq<Bytes>) {
    forall n :: 0 < n <= |here| ==> Path(true, here[..n]) in st.seen
  }

  lemma {:induction false} WalkedSupports(st: State, here: seq<Bytes>, c: Bytes)
    requires Walked(st, here)
    ensures Supported(st, |st.log|, Path(true, here + [c]))
  {
    var x := Path(true, here + [c]);
    forall n | 0 < n < |x.comps| ensures Archived(st.log, |st.log|, Up(x, n)) || Shadowed(st, Up(x, n), x) {
      assert x.comps[..n] == here[..n];
      var u := Up(x, n);
      assert u in st.seen;
      if !Archived(st.log, |st.log|, u) {
        assert Phantom(st, u) && Above(u, u) && Above(u, x) && u != x;
      }
    }
  }

  lemma {:induction false} DirsFromParents(st: State, here: seq<Bytes>, comps: seq<Bytes>, md: Md)
    requires ParentsFirst(st) && DOT_DOT !in here && Walked(st, here)
    ensures var r := DirsFrom(st, here, comps, md);
            && ParentsFirst(r.st)
            && (r.out.Ok? && DOT_DOT !in comps ==> Walked(r.st, here + comps))
    decreases |comps|
  {
    hide ParentsFirst, Supported, Put, See, Render, Ext;
    if comps == [] {
      assert here + comps == here;
    } else if comps[0] == DOT_DOT {
      if here != [] {
        var up := here[..|here| - 1];
        assert forall n :: 0 < n <= |up| ==> up[..n] == here[..n];
        DirsFromParents(st, up, comps[1..], md);
      }
    } else {
      var next := here + [comps[0]];
      var p := Path(true, next);
      assert next + comps[1..] == here + comps;
      if p in st.seen {
        NextWalked(st, st, here, comps[0]);
        DirsFromParents(st, next, comps[1..], md);
      } else {
        DirAdded(st, here, comps[0], md);
        var put := Put(See(st, p), p, PathCall(Render(p), md), Mocked);
        if put.out.Ok? {
          NextWalked(st, put.st, here, comps[0]);
          DirsFromParents(put.st, next, comps[1..], md);
        }
      }
    }
  }

  lemma {:induction false} NextWalked(a: State, b: State, here: seq<Bytes>, c: Bytes)
    requires Walked(a, here) && a.seen <= b.seen && Path(true, here + [c]) in b.seen
    ensures Walked(b, here + [c])
  {
    var next := here + [c];
    forall n | 0 < n <= |next| ensures Path(true, next[..n]) in b.seen {
      if n <= |here| { assert next[..n] == here[..n]; } else { assert next[..n] == next; }
    }
  }

  lemma {:induction false} DirAdded(st: State, here: seq<Bytes>, c: Bytes, md: Md)
    requires ParentsFirst(st) && Walked(st, here) && Path(true, here + [c]) !in st.seen
    ensures var p := Path(true, here + [c]);
            var put := Put(See(st, p), p, PathCall(Render(p), md), Mocked);
            ParentsFirst(put.st) && put.st.seen == st.seen + {p}
  {
    hide ParentsFirst, Supported, Put, See, Render, Ext, Walked;
    var p := Path(true, here + [c]);
    var put := Put(See(st, p), p, PathCall(Render(p), md), Mocked);
    NewDir(st, p, md);
    if put.out.Ok? {
      WalkedSupports(st, here, c);
      ParentsGrow(st, put.st);
    } else {
      assert put.st.log == st.log;
      ParentsKept(st, put.st);
    }
  }

  /** The early return on a seen directory is sound: what is seen is archived with
      its ancestors before it, or is itself the shadow. */
  lemma {:induction false} SeenSupports(st: State, x: Path, p: Path)
    requires ParentsFirst(st) && Ordinary(x) && Parent(x) == Some(p) && p in st.seen
    ensures Supported(st, |st.log|, x)
  {
    hide Archived, Phantom;
    forall n | 0 < n < |x.comps| ensures Archived(st.log, |st.log|, Up(x, n)) || Shadowed(st, Up(x, n), x) {
      assert Up(x, n).comps == p.comps[..n];
      if Phantom(st, p) {
        assert Above(Up(x, n), p) && Above(p, x) && p != x;
      } else {
        ArchivedSupports(st, x, p, n);
      }
    }
  }

  lemma {:induction false} ArchivedSupports(st: State, x: Path, p: Path, n: nat)
    requires ParentsFirst(st) && Ordinary(x) && Parent(x) == Some(p) && p in st.seen && !Phantom(st, p)
    requires 0 < n < |x.comps|
    ensures Archived(st.log, |st.log|, Up(x, n)) || Shadowed(st, Up(x, n), x)
  {
    var i :| 0 <= i < |st.log| && st.log[i].dst == p;
    assert Ordinary(p);
    assert Supported(st, i, p);
    if n == |p.comps| {
      assert Up(x, n) == p;
    } else {
      assert Up(x, n) == Up(p, n);
      if Archived(st.log, i, Up(p, n)) {
        ArchivedKept(st.log, st.log, i, |st.log|, Up(p, n));
      } else {
        var h :| Phantom(st, h) && Above(Up(p, n), h) && Above(h, p) && h != p;
        assert Above(h, x) && h != x;
      }
    }
  }

  lemma {:induction false} DirsParents(st: State, x: Path, md: Md)
    requires ParentsFirst(st)
    ensures var r := Dirs(st, Parent(x), md);
            && ParentsFirst(r.st)
            && (r.out.Ok? && Ordinary(x) ==> Supported(r.st, |r.st.log|, x))
  {
    hide ParentsFirst, Supported, DirsFrom, ParentMd;
    var path := Parent(x);
    if path.None? {
      NoAncestors(st, x);
    } else {
      var p := path.value;
      if p.absolute {
        if p in st.seen {
          if Ordinary(x) { SeenSupports(st, x, p); }
        } else {
          DirsFromParents(st, [], p.comps, ParentMd(md));
          var r := DirsFrom(st, [], p.comps, ParentMd(md));
          assert [] + p.comps == p.comps;
          if r.out.Ok? && Ordinary(x) {
            WalkedSupports(r.st, p.comps, x.comps[|x.comps| - 1]);
            assert x.comps == p.comps + [x.comps[|x.comps| - 1]];
          }
        }
      }
    }
  }

  lemma NoAncestors(st: State, x: Path)
    requires |x.comps| <= 1
    ensures Supported(st, |st.log|, x)
  {
  }

  // ---- one entry under its parents ----------------------------------------

  /** An entry archived from a state that supports it. */
  lemma {:induction false} PutSupported(a: State, dst: Path, call: Call, origin: Origin)
    requires ParentsFirst(a) && dst !in a.seen && call.path == Render(dst) && !ByAutorun(origin)
    requires Ordinary(dst) ==> Supported(a, |a.log|, dst)
    ensures var b := See(Put(a, dst, call, origin).st, dst); ParentsFirst(b)
  {
    hide ParentsFirst, Supported, Accepted, Render, Ext;
    var b := See(Put(a, dst, call, origin).st, dst);
    ExtPut(a, dst, call, origin);
    if b.log == a.log { ParentsKept(a, b); } else { ParentsGrow(a, b); }
  }

  lemma {:induction false} PutUnderParents(st: State, dst: Path, md: Md, call: Call, origin: Origin)
    requires ParentsFirst(st) && dst !in st.seen && call.path == Render(dst) && !ByAutorun(origin)
    ensures ParentsFirst(PutUnder(st, dst, md, call, origin).st)
  {
    hide ParentsFirst, Supported, Dirs, Accepted, Render, Ext;
    DirsParents(st, dst, md);
    DirsExt(st, dst, md);
    var dirs := Dirs(st, Parent(dst), md);
    if dirs.out.Ok? { PutSupported(dirs.st, dst, call, origin); }
  }

  /** Only the log and the seen paths matter. */
  lemma {:induction false} ParentsLibs(st: State, libs: set<Bytes>)
    requires ParentsFirst(st)
    ensures ParentsFirst(st.(libs := libs))
    ensures forall x :: Supported(st, |st.log|, x) ==> Supported(st.(libs := libs), |st.log|, x)
  {
    hide Supported, Ordinary;
    var b := st.(libs := libs);
    ExtSelf(st);
    ExtLibs(st, st, libs);
    forall i, x | 0 <= i <= |st.log| && Supported(st, i, x) ensures Supported(b, i, x) {
      SupportedKept(st, b, i, i, x);
    }
  }

  lemma {:induction false} ElfArchiveParents(st: State, ent: Ent, path: Path, node: Node, md: Md)
    requires ParentsFirst(st) && DstOf(ent, path) !in st.seen
    ensures ParentsFirst(ElfArchive(st, ent, path, node, md).st)
  {
    hide ParentsFirst, Supported, Dirs, PlanElf, Accepted, Render, DstOf, Ext;
    var dst := DstOf(ent, path);
    DirsParents(st, dst, md);
    DirsExt(st, dst, md);
    var dirs := Dirs(st, Parent(dst), md);
    if dirs.out.Ok? {
      var plan := PlanElf(dirs.st, ent, path, node, md);
      if plan.Plan? {
        PlanNames(dirs.st, ent, path, node, md);
        ParentsLibs(dirs.st, plan.libs);
        ExtPut(dirs.st.(libs := plan.libs), dst, plan.call, Scanned(path, IsLib(ent)));
        PutSupported(dirs.st.(libs := plan.libs), dst, plan.call, Scanned(path, IsLib(ent)));
      }
    }
  }

  lemma {:induction false} ElfStepParents(fs: Fs, st: State, ent: Ent)
    requires ParentsFirst(st)
    ensures ParentsFirst(ElfStep(fs, st, ent).st)
  {
    hide ParentsFirst, Locate, MdFrom, ElfArchive;
    var path := Locate(fs, ent);
    if path.Some? && DstOf(ent, path.value) !in st.seen {
      var md := MdFrom(CUT_PROPS, fs.nodes[path.value].stat);
      if md.Some? { ElfArchiveParents(st, ent, path.value, fs.nodes[path.value], md.value); }
    }
  }

  // ---- the tree worklist --------------------------------------------------

  /** Seeing the child first makes no difference to archiving its parents. */
  lemma {:induction false} DirsFromSee(st: State, here: seq<Bytes>, comps: seq<Bytes>, md: Md, d: Path)
    requires DOT_DOT !in here && (!Plain(d) || |d.comps| > |here| + |comps|)
    ensures var r := DirsFrom(st, here, comps, md);
            DirsFrom(See(st, d), here, comps, md) == Result(See(r.st, d), r.out)
    decreases |comps|
  {
    hide ParentMd, Render, Accepted;
    if comps != [] {
      if comps[0] == DOT_DOT {
        if here != [] { DirsFromSee(st, here[..|here| - 1], comps[1..], md, d); }
      } else {
        var next := here + [comps[0]];
        var p := Path(true, next);
        assert Plain(p) && p != d;
        if p in st.seen {
          DirsFromSee(st, next, comps[1..], md, d);
        } else {
          SeeOrder(st, p, d, PathCall(Render(p), md));
          var put := Put(See(st, p), p, PathCall(Render(p), md), Mocked);
          if put.out.Ok? { DirsFromSee(put.st, next, comps[1..], md, d); }
        }
      }
    }
  }

  lemma SeeOrder(st: State, p: Path, d: Path, call: Call)
    ensures var put := Put(See(st, p), p, call, Mocked);
            Put(See(See(st, d), p), p, call, Mocked) == Result(See(put.st, d), put.out)
  {
    hide Accepted;
    assert st.seen + {d} + {p} == st.seen + {p} + {d};
  }

  lemma {:induction false} DirsSee(st: State, d: Path, md: Md)
    ensures var r := Dirs(st, Parent(d), md);
            Dirs(See(st, d), Parent(d), md) == Result(See(r.st, d), r.out)
  {
    hide DirsFrom, ParentMd;
    var path := Parent(d);
    if path.Some? && path.value.absolute {
      assert path.value != d;
      DirsFromSee(st, [], path.value.comps, ParentMd(md), d);
    }
  }

  /** An item whose parents need no check has them archived. */
  ghost predicate ItemReady(st: State, item: Item) {
    item.ignoreParent && Ordinary(item.dst) ==> Supported(st, |st.log|, item.dst)
  }

  lemma {:induction false} ItemReadyKept(a: State, b: State, item: Item)
    requires ItemReady(a, item) && Ext(a, b)
    ensures ItemReady(b, item)
  {
    hide Supported, Ordinary, Proper;
    if item.ignoreParent && Ordinary(item.dst) {
      SupportedKept(a, b, |a.log|, |b.log|, item.dst);
    }
  }

  lemma {:induction false} DataRoundParents(fs: Fs, st: State, item: Item)
    requires ParentsFirst(st) && ItemReady(st, item)
    ensures var r := DataRound(fs, st, item);
            && ParentsFirst(r.st)
            && forall k :: 0 <= k < |r.push| ==> ItemReady(r.st, r.push[k])
  {
    hide ParentsFirst, Supported, Dirs, MdFrom, Accepted, Render, Sort, ChildItems, DataCall, Ext, Ordinary;
    if item.src in fs.nodes && item.dst !in st.seen {
      var node := fs.nodes[item.src];
      var md := MdFrom(CUT_PROPS, node.stat);
      if md.Some? {
        var call := DataCall(item.dst, node, md.value);
        DataCallPath(item.dst, node, md.value);
        DirsSee(st, item.dst, md.value);
        var dirs := if item.ignoreParent then Result(st, Ok) else Dirs(st, Parent(item.dst), md.value);
        DirsParents(st, item.dst, md.value);
        DirsExt(st, item.dst, md.value);
        if dirs.out.Ok? {
          PutSupported(dirs.st, item.dst, call, Copied(item.src));
          SeePutOrder(dirs.st, item.dst, call, Copied(item.src));
          DataPushReady(dirs.st, item, call, Sort(node.children));
        } else {
          ExtSee(dirs.st, item.dst);
          ParentsKept(dirs.st, See(dirs.st, item.dst));
        }
      }
    }
  }

  lemma SeePutOrder(st: State, d: Path, call: Call, origin: Origin)
    ensures var put := Put(st, d, call, origin);
            Put(See(st, d), d, call, origin) == Result(See(put.st, d), put.out)
  {
    hide Accepted;
  }

  /** The children of a directory just archived are ready. */
  lemma {:induction false} DataPushReady(st: State, item: Item, call: Call, names: seq<Bytes>)
    requires item.dst !in st.seen && (Ordinary(item.dst) ==> Supported(st, |st.log|, item.dst)) && call.path == Render(item.dst)
    ensures var put := Put(See(st, item.dst), item.dst, call, Copied(item.src));
            put.out.Ok? ==>
            forall k :: 0 <= k < |ChildItems(item.src, item.dst, names)| ==>
              ItemReady(put.st, ChildItems(item.src, item.dst, names)[k])
  {
    hide Accepted, Render, Supported, Archived, Shadowed, Ext;
    var put := Put(See(st, item.dst), item.dst, call, Copied(item.src));
    if put.out.Ok? {
      ExtSee(st, item.dst);
      ExtSelf(See(st, item.dst));
      ExtSeePut(st, See(st, item.dst), item.dst, call, Copied(item.src));
      ChildItemsAt(item.src, item.dst, names);
      forall k | 0 <= k < |names| ensures ItemReady(put.st, ChildItem(item.src, item.dst, names[k])) {
        ChildReady(st, put.st, item.dst, names[k]);
      }
    }
  }

  lemma {:induction false} ChildItemsAt(src: Path, dst: Path, names: seq<Bytes>)
    ensures |ChildItems(src, dst, names)| == |names|
    ensures forall k :: 0 <= k < |names| ==> ChildItems(src, dst, names)[k] == ChildItem(src, dst, names[k])
    decreases |names|
  {
    if names != [] { ChildItemsAt(src, dst, names[1..]); }
  }

  lemma {:induction false} ChildReady(a: State, b: State, dst: Path, name: Bytes)
    requires Ext(a, b) && |b.log| == |a.log| + 1 && b.log[|a.log|].dst == dst
    requires Ordinary(dst) ==> Supported(a, |a.log|, dst)
    ensures var x := dst.(comps := dst.comps + [name]);
            Ordinary(x) ==> Supported(b, |b.log|, x)
  {
    hide Ext, Phantom;
    var x := dst.(comps := dst.comps + [name]);
    if Ordinary(x) {
      assert Ordinary(dst) by { assert forall c :: c in dst.comps ==> c in x.comps; }
      SupportedKept(a, b, |a.log|, |b.log|, dst);
      forall n | 0 < n < |x.comps| ensures Archived(b.log, |b.log|, Up(x, n)) || Shadowed(b, Up(x, n), x) {
        if n == |dst.comps| {
          assert Up(x, n) == dst;
        } else {
          assert Up(x, n) == Up(dst, n);
          if !Archived(b.log, |b.log|, Up(dst, n)) {
            var h :| Phantom(b, h) && Above(Up(dst, n), h) && Above(h, dst) && h != dst;
            assert Above(h, x) && h != x;
          }
        }
      }
    }
  }
}
