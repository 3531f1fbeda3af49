/** The ELF worklist of `gather_archive_elfs` (src/bin/rapido-cut.rs): it ends on
    every finite file system, and when it ends nothing is left unresolved. */
module ElfWorklist {
  import opened Strings
  import opened Newc
  import opened Cpio
  import opened HostFs
  import opened Gather
  import opened GatherOnce
  import opened GatherParents

  // ---- termination --------------------------------------------------------

  /** Entries with a destination of their own; nothing ever pushes one. */
  function Renamed(stack: seq<Ent>): nat {
    if stack == [] then 0
    else (if stack[|stack| - 1].NamedDst? then 1 else 0) + Renamed(stack[..|stack| - 1])
  }

  /** Host paths not seen yet. */
  function Unseen(fs: Fs, st: State): nat { |fs.nodes.Keys - st.seen| }

  lemma {:induction false} RenamedConcat(a: seq<Ent>, b: seq<Ent>)
    requires forall i :: 0 <= i < |b| ==> !b[i].NamedDst?
    ensures Renamed(a + b) == Renamed(a)
    decreases |b|
  {
    if b == [] {
      assert a + b == a;
    } else {
      assert (a + b)[..|a + b| - 1] == a + b[..|b| - 1];
      RenamedConcat(a, b[..|b| - 1]);
    }
  }

  lemma {:induction false} UnseenShrinks(fs: Fs, a: State, b: State)
    requires a.seen <= b.seen
    ensures Unseen(fs, b) <= Unseen(fs, a)
    ensures forall p :: p in fs.nodes && p !in a.seen && p in b.seen ==> Unseen(fs, b) < Unseen(fs, a)
  {
    var ua, ub := fs.nodes.Keys - a.seen, fs.nodes.Keys - b.seen;
    assert ub <= ua;
    CardinalityShrinks(ub, ua);
    forall p | p in fs.nodes && p !in a.seen && p in b.seen ensures |ub| < |ua| {
      assert p in ua && p !in ub;
    }
  }

  lemma {:induction false} CardinalityShrinks(x: set<Path>, y: set<Path>)
    requires x <= y
    ensures |x| <= |y| && (x != y ==> |x| < |y|)
  {
    assert y == x + (y - x);
  }

  /** The needed names up to the first that cannot be read. */
  function Names(needed: seq<Option<Bytes>>): seq<Bytes> {
    if needed == [] || needed[0].None? then [] else [needed[0].value] + Names(needed[1..])
  }

  /** All names can be read. */
  predicate Whole(needed: seq<Option<Bytes>>) { None !in needed }

  lemma {:induction false} NeededPush(libs: set<Bytes>, needed: seq<Option<Bytes>>, runpaths: seq<Bytes>)
    ensures var d := NeededDeps(libs, needed, runpaths);
            && libs <= d.libs
            && (forall i :: 0 <= i < |d.ents| ==> IsLib(d.ents[i]))
            && (forall s :: s in d.libs && s !in libs ==> LibEnt(s, runpaths) in d.ents && s in Names(needed))
            && (forall s :: s in Names(needed) ==> s in d.libs)
            && (d.ok <==> Whole(needed))
    decreases |needed|
  {
    if needed != [] {
      assert None in needed <==> needed[0].None? || None in needed[1..];
      if needed[0].Some? {
        var s := needed[0].value;
        NeededPush(if s in libs then libs else libs + {s}, needed[1..], runpaths);
      }
    }
  }

  lemma {:induction false} ChildrenPush(src: Path, names: seq<Bytes>)
    ensures forall i :: 0 <= i < |Children(src, names)| ==> Children(src, names)[i].PathEnt?
    decreases |names|
  {
    if names != [] { ChildrenPush(src, names[1..]); }
  }

  lemma {:induction false} PlanPush(st: State, ent: Ent, path: Path, node: Node, md: Md)
    ensures var plan := PlanElf(st, ent, path, node, md);
            plan.Plan? ==> forall i :: 0 <= i < |plan.push| ==> !plan.push[i].NamedDst?
  {
    hide Executable, Sort, Children, Render;
    ChildrenPush(path, Sort(node.children));
    if node.elf.Elf? { NeededPush(st.libs, node.elf.needed, node.elf.runpaths); }
  }

  /** What one round pushes is paid for by a path that has become seen. */
  lemma {:induction false} StepMeasure(fs: Fs, st: State, ent: Ent)
    ensures var r := ElfStep(fs, st, ent);
            && st.seen <= r.st.seen
            && (forall i :: 0 <= i < |r.push| ==> !r.push[i].NamedDst?)
            && (r.push != [] && !ent.NamedDst? ==> Unseen(fs, r.st) < Unseen(fs, st))
  {
    hide Locate, MdFrom, ElfArchive, Unseen, Ext;
    var r := ElfStep(fs, st, ent);
    ElfStepExt(fs, st, ent);
    ExtSeen(st, r.st);
    UnseenShrinks(fs, st, r.st);
    var path := Locate(fs, ent);
    if path.Some? && DstOf(ent, path.value) !in st.seen {
      var md := MdFrom(CUT_PROPS, fs.nodes[path.value].stat);
      if md.Some? { ArchivePush(st, ent, path.value, fs.nodes[path.value], md.value); }
    }
  }

  lemma {:induction false} ArchivePush(st: State, ent: Ent, path: Path, node: Node, md: Md)
    ensures var r := ElfArchive(st, ent, path, node, md);
            && (forall i :: 0 <= i < |r.push| ==> !r.push[i].NamedDst?)
            && (r.push != [] ==> DstOf(ent, path) in r.st.seen)
  {
    hide Dirs, PlanElf, Accepted, Render;
    var dirs := Dirs(st, Parent(DstOf(ent, path)), md);
    PlanPush(dirs.st, ent, path, node, md);
  }

  /** `gather_archive_elfs` from a given worklist on. */
  function Elfs(fs: Fs, stack: seq<Ent>, st: State): Result
    decreases Renamed(stack), Unseen(fs, st), |stack|
  {
    if stack == [] then Result(st, Ok)
    else
      var ent, rest := stack[|stack| - 1], stack[..|stack| - 1];
      var r := ElfStep(fs, st, ent);
      if r.out.Err? then Result(r.st, r.out)
      else
        hide ElfStep, Unseen;
        StepMeasure(fs, st, ent);
        UnseenShrinks(fs, st, r.st);
        RenamedConcat(rest, r.push);
        Elfs(fs, rest + r.push, r.st)
  }

  // ---- invariants over the whole worklist ---------------------------------

  lemma {:induction false} ElfsExt(fs: Fs, stack: seq<Ent>, st: State)
    ensures Ext(st, Elfs(fs, stack, st).st)
    decreases Renamed(stack), Unseen(fs, st), |stack|
  {
    hide Ext, ElfStep, Unseen;
    ExtSelf(st);
    if stack != [] {
      var ent, rest := stack[|stack| - 1], stack[..|stack| - 1];
      var r := ElfStep(fs, st, ent);
      ElfStepExt(fs, st, ent);
      if r.out.Ok? {
        StepMeasure(fs, st, ent);
        UnseenShrinks(fs, st, r.st);
        RenamedConcat(rest, r.push);
        ElfsExt(fs, rest + r.push, r.st);
        ExtTrans(st, r.st, Elfs(fs, rest + r.push, r.st).st);
      }
    }
  }

  lemma {:induction false} ElfsParents(fs: Fs, stack: seq<Ent>, st: State)
    requires ParentsFirst(st)
    ensures ParentsFirst(Elfs(fs, stack, st).st)
    decreases Renamed(stack), Unseen(fs, st), |stack|
  {
    hide ParentsFirst, ElfStep, Unseen;
    if stack != [] {
      var ent, rest := stack[|stack| - 1], stack[..|stack| - 1];
      var r := ElfStep(fs, st, ent);
      ElfStepParents(fs, st, ent);
      if r.out.Ok? {
        StepMeasure(fs, st, ent);
        UnseenShrinks(fs, st, r.st);
        RenamedConcat(rest, r.push);
        ElfsParents(fs, rest + r.push, r.st);
      }
    }
  }

  // ---- nothing left unresolved --------------------------------------------

  predicate IsLink(node: Node) { TypeOf(node.stat.mode) == IFLNK }

  predicate Dangling(node: Node) { IsLink(node) && node.canon.None? }

  /** Found, and seen or a link that leads nowhere. */
  predicate Done(fs: Fs, st: State, ent: Ent) {
    var p := Locate(fs, ent);
    p.Some? && (p.value in st.seen || Dangling(fs.nodes[p.value]))
  }

  /** Is the node one whose libraries belong into the image? A regular ELF file that is
      not empty and that someone may execute, or that was found as a library. */
  predicate ReadsNeeded(node: Node, lib: bool) {
    var mode := node.stat.mode;
    && mode / 4096 % 16 == 8 && node.stat.size > 0 && node.elf.Elf?
    && (mode % 2 == 1 || mode / 8 % 2 == 1 || mode / 64 % 2 == 1 || lib)
  }

  /** An archived file that needs the library `s`, as far as it can be read. */
  predicate Asks(fs: Fs, e: LogEntry, s: Bytes) {
    && e.origin.Scanned? && e.origin.src in fs.nodes
    && ReadsNeeded(fs.nodes[e.origin.src], e.origin.lib)
    && s in Names(fs.nodes[e.origin.src].elf.needed)
  }

  /** ... and that can be read to its end. */
  predicate AsksWhole(fs: Fs, e: LogEntry, s: Bytes) {
    Asks(fs, e, s) && Whole(fs.nodes[e.origin.src].elf.needed)
  }

  /** The first archived file that needs `s`; it decides where to look. */
  ghost predicate FirstAsks(fs: Fs, log: seq<LogEntry>, k: nat, s: Bytes) {
    k < |log| && Asks(fs, log[k], s) && forall j :: 0 <= j < k ==> !Asks(fs, log[j], s)
  }

  /** The lookup of `s` on behalf of the file behind `e`: in its own search
      directories first. */
  function LookupOf(fs: Fs, e: LogEntry, s: Bytes): Ent
    requires Asks(fs, e, s)
  {
    LibEnt(s, fs.nodes[e.origin.src].elf.runpaths)
  }

  predicate ForTarget(ent: Ent, t: Path) { ent == Named(Render(t)) || ent == Lib(Render(t)) }

  predicate Handled(fs: Fs, st: State, stack: seq<Ent>, ent: Ent) { ent in stack || Done(fs, st, ent) }

  /** Looked for on behalf of the first file that needs it, if that can be read. */
  ghost predicate PendingLib(fs: Fs, st: State, stack: seq<Ent>, s: Bytes) {
    exists k: nat :: FirstAsks(fs, st.log, k, s) && LookedFor(fs, st, stack, st.log[k], s)
  }

  ghost predicate LookedFor(fs: Fs, st: State, stack: seq<Ent>, e: LogEntry, s: Bytes)
    requires Asks(fs, e, s)
  {
    AsksWhole(fs, e, s) ==> Handled(fs, st, stack, LookupOf(fs, e, s))
  }

  ghost predicate PendingTarget(fs: Fs, st: State, stack: seq<Ent>, t: Path) {
    exists ent :: ForTarget(ent, t) && Handled(fs, st, stack, ent)
  }

  /** What one archived entry asks for is known, pending or resolved. */
  ghost predicate EntryServed(fs: Fs, st: State, stack: seq<Ent>, e: LogEntry) {
    e.origin.Scanned? ==>
      && e.origin.src in fs.nodes
      && var node := fs.nodes[e.origin.src];
      && (ReadsNeeded(node, e.origin.lib) ==>
            forall s :: s in Names(node.elf.needed) ==> s in st.libs)
      && (IsLink(node) ==> node.canon.Some? && PendingTarget(fs, st, stack, node.canon.value))
      && (IsDirectory(node) ==> ChildrenHandled(fs, st, stack, e.origin.src, node))
  }

  predicate IsDirectory(node: Node) { node.stat.mode / 4096 % 16 == 4 }

  function ChildPath(src: Path, name: Bytes): Path { src.(comps := src.comps + [name]) }

  predicate ChildrenHandled(fs: Fs, st: State, stack: seq<Ent>, src: Path, node: Node) {
    forall c :: c in node.children ==> Handled(fs, st, stack, PathEnt(ChildPath(src, c)))
  }

  ghost predicate Served(fs: Fs, st: State, stack: seq<Ent>) {
    && (forall s :: s in st.libs ==> PendingLib(fs, st, stack, s))
    && (forall i :: 0 <= i < |st.log| ==> EntryServed(fs, st, stack, st.log[i]))
  }

  /** Every needed name is known. */
  ghost predicate Known(fs: Fs, st: State) {
    forall i, s :: 0 <= i < |st.log| && Asks(fs, st.log[i], s) ==> s in st.libs
  }

  lemma ServedKnown(fs: Fs, st: State, stack: seq<Ent>)
    requires Served(fs, st, stack)
    ensures Known(fs, st)
  {
    hide ReadsNeeded, PendingLib, PendingTarget;
    forall i, s | 0 <= i < |st.log| && Asks(fs, st.log[i], s) ensures s in st.libs {
      assert EntryServed(fs, st, stack, st.log[i]);
    }
  }

  /** After a round the popped entry is done. */
  lemma {:induction false} PoppedDone(fs: Fs, st: State, ent: Ent)
    requires ElfStep(fs, st, ent).out.Ok? && !ent.NamedDst? && !ent.NamedTry?
    ensures Done(fs, ElfStep(fs, st, ent).st, ent)
  {
    hide Locate, Dirs, Accepted, Render, ElfDeps, Sort, Children, Executable;
    var path := Locate(fs, ent).value;
    if path !in st.seen {
      var node := fs.nodes[path];
      var md := MdFrom(CUT_PROPS, node.stat).value;
      var dirs := Dirs(st, Parent(path), md);
      assert md.mode == node.stat.mode;
      var plan := PlanElf(dirs.st, ent, path, node, md);
      assert plan.Skip? ==> Dangling(node);
    }
  }

  lemma DoneKept(fs: Fs, a: State, b: State, ent: Ent)
    requires Done(fs, a, ent) && a.seen <= b.seen
    ensures Done(fs, b, ent)
  {
    hide Locate;
  }

  /** From one worklist to the next: `ent` has been dealt with. */
  ghost predicate Moves(fs: Fs, a: State, ent: Ent, b: State, stack: seq<Ent>, next: seq<Ent>) {
    && a.seen <= b.seen && a.libs <= b.libs && a.log <= b.log
    && (forall x :: x in stack ==> x in next || x == ent)
    && (ent.NamedDst? || ent.NamedTry? || Done(fs, b, ent))
  }

  lemma {:induction false} HandledMoves(fs: Fs, a: State, ent: Ent, b: State, stack: seq<Ent>, next: seq<Ent>, x: Ent)
    requires Moves(fs, a, ent, b, stack, next) && Handled(fs, a, stack, x) && !x.NamedDst? && !x.NamedTry?
    ensures Handled(fs, b, next, x)
  {
    hide Done;
    if Done(fs, a, x) { DoneKept(fs, a, b, x); }
  }

  lemma {:induction false} PendingMoves(fs: Fs, a: State, ent: Ent, b: State, stack: seq<Ent>, next: seq<Ent>)
    requires Moves(fs, a, ent, b, stack, next)
    ensures forall s :: PendingLib(fs, a, stack, s) ==> PendingLib(fs, b, next, s)
    ensures forall t :: PendingTarget(fs, a, stack, t) ==> PendingTarget(fs, b, next, t)
  {
    hide Handled, Render, Asks, Done, AsksWhole;
    forall s | PendingLib(fs, a, stack, s) ensures PendingLib(fs, b, next, s) {
      var k: nat :| FirstAsks(fs, a.log, k, s) && LookedFor(fs, a, stack, a.log[k], s);
      assert forall j :: 0 <= j <= k ==> b.log[j] == a.log[j];
      assert FirstAsks(fs, b.log, k, s);
      if AsksWhole(fs, a.log[k], s) { HandledMoves(fs, a, ent, b, stack, next, LookupOf(fs, a.log[k], s)); }
      assert LookedFor(fs, b, next, b.log[k], s);
    }
    forall t | PendingTarget(fs, a, stack, t) ensures PendingTarget(fs, b, next, t) {
      var x :| ForTarget(x, t) && Handled(fs, a, stack, x);
      HandledMoves(fs, a, ent, b, stack, next, x);
    }
  }

  lemma {:induction false} EntryMoves(fs: Fs, a: State, ent: Ent, b: State, stack: seq<Ent>, next: seq<Ent>, e: LogEntry)
    requires Moves(fs, a, ent, b, stack, next) && EntryServed(fs, a, stack, e)
    ensures EntryServed(fs, b, next, e)
  {
    hide PendingTarget, PendingLib, ReadsNeeded, IsLink, Done, IsDirectory, Handled;
    PendingMoves(fs, a, ent, b, stack, next);
    if e.origin.Scanned? && IsDirectory(fs.nodes[e.origin.src]) {
      var node := fs.nodes[e.origin.src];
      forall c | c in node.children ensures Handled(fs, b, next, PathEnt(ChildPath(e.origin.src, c))) {
        HandledMoves(fs, a, ent, b, stack, next, PathEnt(ChildPath(e.origin.src, c)));
      }
    }
  }

  /** Parent directories are never scanned. */
  lemma {:induction false} DirsFromMocked(st: State, here: seq<Bytes>, comps: seq<Bytes>, md: Md)
    ensures var r := DirsFrom(st, here, comps, md);
            && st.log <= r.st.log && r.st.libs == st.libs
            && forall i :: |st.log| <= i < |r.st.log| ==> r.st.log[i].origin == Mocked
    decreases |comps|
  {
    hide Accepted, Render;
    if comps != [] {
      if comps[0] == DOT_DOT {
        if here != [] { DirsFromMocked(st, here[..|here| - 1], comps[1..], md); }
      } else {
        var next := here + [comps[0]];
        var p := Path(true, next);
        var put := Put(See(st, p), p, PathCall(Render(p), md), Mocked);
        if p in st.seen {
          DirsFromMocked(st, next, comps[1..], md);
        } else if put.out.Ok? {
          DirsFromMocked(put.st, next, comps[1..], md);
          var r := DirsFrom(put.st, next, comps[1..], md);
          assert r.st.log[|st.log|] == put.st.log[|st.log|];
        }
      }
    }
  }

  lemma {:induction false} DirsMocked(st: State, path: Option<Path>, md: Md)
    ensures var r := Dirs(st, path, md);
            && st.log <= r.st.log && r.st.libs == st.libs
            && forall i :: |st.log| <= i < |r.st.log| ==> r.st.log[i].origin == Mocked
  {
    hide DirsFrom, ParentMd;
    if path.Some? { DirsFromMocked(st, [], path.value.comps, ParentMd(md)); }
  }

  /** A plan takes care of everything its node asks for. */
  lemma {:induction false} PlanServes(fs: Fs, st: State, ent: Ent, path: Path, md: Md)
    requires path in fs.nodes && MdFrom(CUT_PROPS, fs.nodes[path].stat) == Some(md)
    ensures var node := fs.nodes[path];
            var plan := PlanElf(st, ent, path, node, md);
            plan.Plan? ==>
            && st.libs <= plan.libs
            && (forall s :: s in plan.libs && s !in st.libs ==>
                  && ReadsNeeded(node, IsLib(ent)) && s in Names(node.elf.needed)
                  && (Whole(node.elf.needed) ==> LibEnt(s, node.elf.runpaths) in plan.push))
            && (ReadsNeeded(node, IsLib(ent)) ==>
                  forall s :: s in Names(node.elf.needed) ==> s in plan.libs)
            && (IsLink(node) ==> node.canon.Some? && exists x :: x in plan.push && ForTarget(x, node.canon.value))
            && (IsDirectory(node) ==> forall c :: c in node.children ==> PathEnt(ChildPath(path, c)) in plan.push)
  {
    hide Render, Executable, Sort, Children;
    var node := fs.nodes[path];
    var plan := PlanElf(st, ent, path, node, md);
    assert md.mode == node.stat.mode && md.len == node.stat.size;
    ExecutableBits(md);
    if IsDirectory(node) { ChildrenPushed(path, node.children); }
    if plan.Plan? && IsLink(node) {
      assert ForTarget(plan.push[0], node.canon.value);
    } else if plan.Plan? && node.elf.Elf? {
      NeededPush(st.libs, node.elf.needed, node.elf.runpaths);
    }
  }

  lemma {:induction false} ChildrenPushed(src: Path, names: seq<Bytes>)
    ensures forall c :: c in names ==> PathEnt(ChildPath(src, c)) in Children(src, Sort(names))
  {
    hide Sort, Children;
    SortSorts(names);
    forall c | c in names ensures PathEnt(ChildPath(src, c)) in Children(src, Sort(names)) {
      assert c in multiset(names) && c in multiset(Sort(names));
      ChildrenHave(src, Sort(names), c);
    }
  }

  lemma {:induction false} ChildrenHave(src: Path, names: seq<Bytes>, c: Bytes)
    requires c in names
    ensures PathEnt(ChildPath(src, c)) in Children(src, names)
    decreases |names|
  {
    if c != names[0] { ChildrenHave(src, names[1..], c); }
  }

  /** The state and the worklist after a round that archived. */
  lemma {:induction false} PlanRound(fs: Fs, st: State, ent: Ent, path: Path, md: Md)
    requires Locate(fs, ent) == Some(path) && DstOf(ent, path) !in st.seen
    requires MdFrom(CUT_PROPS, fs.nodes[path].stat) == Some(md)
    requires ElfArchive(st, ent, path, fs.nodes[path], md).out.Ok? && Known(fs, st)
    ensures var r := ElfArchive(st, ent, path, fs.nodes[path], md);
            && st.libs <= r.st.libs && st.log <= r.st.log
            && (forall s :: s in r.st.libs && s !in st.libs ==> PendingLib(fs, r.st, r.push, s))
            && (forall i :: |st.log| <= i < |r.st.log| ==> EntryServed(fs, r.st, r.push, r.st.log[i]))
  {
    hide Dirs, PlanElf, Accepted, Render, MdFrom, Locate, ReadsNeeded, IsLink, Done, DstOf, LibEnt, IsDirectory;
    var node := fs.nodes[path];
    var dst := DstOf(ent, path);
    var dirs := Dirs(st, Parent(dst), md);
    DirsMocked(st, Parent(dst), md);
    var plan := PlanElf(dirs.st, ent, path, node, md);
    if plan.Plan? {
      PlanServes(fs, dirs.st, ent, path, md);
      var r := ElfArchive(st, ent, path, node, md);
      assert r.push == plan.push;
      forall s | s in r.st.libs && s !in st.libs ensures PendingLib(fs, r.st, r.push, s) {
        var k := |dirs.st.log|;
        assert r.st.log[k].origin == Scanned(path, IsLib(ent));
        forall j | 0 <= j < k ensures !Asks(fs, r.st.log[j], s) {
          assert r.st.log[j] == dirs.st.log[j];
          if j < |st.log| { assert dirs.st.log[j] == st.log[j]; }
        }
        assert FirstAsks(fs, r.st.log, k, s);
        assert LookedFor(fs, r.st, r.push, r.st.log[k], s);
      }
      forall i | |st.log| <= i < |r.st.log| ensures EntryServed(fs, r.st, r.push, r.st.log[i]) {
        if i < |dirs.st.log| {
          assert r.st.log[i] == dirs.st.log[i];
        } else if IsLink(node) {
          var x :| x in plan.push && ForTarget(x, node.canon.value);
        }
      }
    }
  }

  lemma {:induction false} RoundServes(fs: Fs, st: State, ent: Ent)
    requires ElfStep(fs, st, ent).out.Ok? && Known(fs, st)
    ensures var r := ElfStep(fs, st, ent);
            && st.libs <= r.st.libs && st.log <= r.st.log
            && (forall s :: s in r.st.libs && s !in st.libs ==> PendingLib(fs, r.st, r.push, s))
            && (forall i :: |st.log| <= i < |r.st.log| ==> EntryServed(fs, r.st, r.push, r.st.log[i]))
  {
    hide Locate, MdFrom, ElfArchive, PendingLib, EntryServed, Known;
    var path := Locate(fs, ent);
    if path.Some? && DstOf(ent, path.value) !in st.seen {
      PlanRound(fs, st, ent, path.value, MdFrom(CUT_PROPS, fs.nodes[path.value].stat).value);
    }
  }

  lemma {:induction false} ServedStep(fs: Fs, st: State, rest: seq<Ent>, ent: Ent)
    requires ElfStep(fs, st, ent).out.Ok? && Served(fs, st, rest + [ent])
    ensures var r := ElfStep(fs, st, ent); Served(fs, r.st, rest + r.push)
  {
    hide ElfStep, PendingLib, PendingTarget, EntryServed, Done, Ext, Known;
    var r := ElfStep(fs, st, ent);
    var stack, next := rest + [ent], rest + r.push;
    ServedKnown(fs, st, stack);
    RoundServes(fs, st, ent);
    StepMeasure(fs, st, ent);
    if !ent.NamedDst? && !ent.NamedTry? { PoppedDone(fs, st, ent); }
    assert Moves(fs, st, ent, r.st, stack, next);
    PendingMoves(fs, st, ent, r.st, stack, next);
    MorePending(fs, r.st, r.push, next);
    forall i | 0 <= i < |r.st.log| ensures EntryServed(fs, r.st, next, r.st.log[i]) {
      if i < |st.log| {
        assert r.st.log[i] == st.log[i];
        EntryMoves(fs, st, ent, r.st, stack, next, st.log[i]);
      } else {
        MoreServed(fs, r.st, r.push, next, r.st.log[i]);
      }
    }
  }

  lemma {:induction false} MorePending(fs: Fs, st: State, a: seq<Ent>, b: seq<Ent>)
    requires forall x :: x in a ==> x in b
    ensures forall s :: PendingLib(fs, st, a, s) ==> PendingLib(fs, st, b, s)
    ensures forall t :: PendingTarget(fs, st, a, t) ==> PendingTarget(fs, st, b, t)
  {
    hide Done, Render, Asks;
    forall s | PendingLib(fs, st, a, s) ensures PendingLib(fs, st, b, s) {
      var k: nat :| FirstAsks(fs, st.log, k, s) && LookedFor(fs, st, a, st.log[k], s);
      assert LookedFor(fs, st, b, st.log[k], s);
    }
    forall t | PendingTarget(fs, st, a, t) ensures PendingTarget(fs, st, b, t) {
      var x :| ForTarget(x, t) && Handled(fs, st, a, x);
      assert Handled(fs, st, b, x);
    }
  }

  lemma {:induction false} MoreServed(fs: Fs, st: State, a: seq<Ent>, b: seq<Ent>, e: LogEntry)
    requires EntryServed(fs, st, a, e) && forall x :: x in a ==> x in b
    ensures EntryServed(fs, st, b, e)
  {
    hide PendingTarget, PendingLib, ReadsNeeded, IsLink;
    MorePending(fs, st, a, b);
  }

  /** Whatever was pending when the worklist started is resolved when it ends. */
  lemma {:induction false} ElfsServed(fs: Fs, stack: seq<Ent>, st: State)
    requires Served(fs, st, stack) && Elfs(fs, stack, st).out.Ok?
    ensures Served(fs, Elfs(fs, stack, st).st, [])
    decreases Renamed(stack), Unseen(fs, st), |stack|
  {
    hide Served, ElfStep, Unseen;
    if stack != [] {
      var ent, rest := stack[|stack| - 1], stack[..|stack| - 1];
      assert stack == rest + [ent];
      var r := ElfStep(fs, st, ent);
      StepMeasure(fs, st, ent);
      UnseenShrinks(fs, st, r.st);
      RenamedConcat(rest, r.push);
      ServedStep(fs, st, rest, ent);
      ElfsServed(fs, rest + r.push, r.st);
    }
  }
}
