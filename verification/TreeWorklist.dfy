/** The tree worklist of `gather_archive_data` (src/bin/rapido-cut.rs) and the
    recursive listing it amounts to. */
module TreeWorklist {
  import opened Newc
  import opened Cpio
  import opened HostFs
  import opened Gather
  import opened GatherOnce
  import opened GatherParents
  import opened ElfWorklist

  predicate Under(top: Path, p: Path) { p.absolute == top.absolute && top.comps <= p.comps }

  // ---- the worklist -------------------------------------------------------

  /** An item below the root of the traversal, on both sides alike. */
  predicate Related(item: Item, src0: Path, dst0: Path) {
    Under(src0, item.src) && item.dst == Image(src0, dst0, item.src)
  }

  /** Where a path below `src0` goes. */
  function Image(src0: Path, dst0: Path, p: Path): Path
    requires Under(src0, p)
  {
    dst0.(comps := dst0.comps + p.comps[|src0.comps|..])
  }

  /** All destinations the traversal can have. */
  function Targets(fs: Fs, src0: Path, dst0: Path): set<Path> {
    set p | p in fs.nodes && Under(src0, p) :: Image(src0, dst0, p)
  }

  function Untouched(fs: Fs, src0: Path, dst0: Path, st: State): nat { |Targets(fs, src0, dst0) - st.seen| }

  predicate AllRelated(items: seq<Item>, src0: Path, dst0: Path) {
    forall i :: 0 <= i < |items| ==> Related(items[i], src0, dst0)
  }

  lemma {:induction false} PushRelated(fs: Fs, st: State, item: Item, src0: Path, dst0: Path)
    requires Related(item, src0, dst0)
    ensures AllRelated(DataRound(fs, st, item).push, src0, dst0)
  {
    hide MdFrom, Dirs, Accepted, Render, Sort, ChildItems, DataCall;
    if item.src in fs.nodes {
      var names := Sort(fs.nodes[item.src].children);
      ChildItemsAt(item.src, item.dst, names);
      forall k | 0 <= k < |names| ensures Related(ChildItem(item.src, item.dst, names[k]), src0, dst0) {
        var s := item.src.comps + [names[k]];
        assert s[|src0.comps|..] == item.src.comps[|src0.comps|..] + [names[k]];
      }
    }
  }

  /** What one round pushes is paid for by a destination that has become seen. */
  lemma {:induction false} RoundMeasure(fs: Fs, st: State, item: Item, src0: Path, dst0: Path)
    requires Related(item, src0, dst0)
    ensures var r := DataRound(fs, st, item);
            && Untouched(fs, src0, dst0, r.st) <= Untouched(fs, src0, dst0, st)
            && (r.push != [] ==> Untouched(fs, src0, dst0, r.st) < Untouched(fs, src0, dst0, st))
  {
    hide Ext, Targets, DataRound;
    var r := DataRound(fs, st, item);
    DataRoundExt(fs, st, item);
    ExtSeen(st, r.st);
    var t := Targets(fs, src0, dst0);
    assert t - r.st.seen <= t - st.seen;
    CardinalityShrinks(t - r.st.seen, t - st.seen);
    if r.push != [] {
      PushFacts(fs, st, item);
      InTargets(fs, src0, dst0, item.src);
      assert item.dst in t - st.seen && item.dst !in t - r.st.seen;
    }
  }

  lemma {:induction false} PushFacts(fs: Fs, st: State, item: Item)
    requires DataRound(fs, st, item).push != []
    ensures item.src in fs.nodes && item.dst !in st.seen && item.dst in DataRound(fs, st, item).st.seen
  {
    hide MdFrom, Dirs, Accepted, Render, Sort, ChildItems, DataCall, Ext;
    var node := fs.nodes[item.src];
    var md := MdFrom(CUT_PROPS, node.stat).value;
    DirsExt(See(st, item.dst), item.dst, md);
    ExtSeen(See(st, item.dst), Dirs(See(st, item.dst), Parent(item.dst), md).st);
  }

  lemma InTargets(fs: Fs, src0: Path, dst0: Path, p: Path)
    requires p in fs.nodes && Under(src0, p)
    ensures Image(src0, dst0, p) in Targets(fs, src0, dst0)
  {
  }

  lemma RelatedConcat(items: seq<Item>, push: seq<Item>, src0: Path, dst0: Path)
    requires AllRelated(items, src0, dst0) && AllRelated(push, src0, dst0)
    ensures AllRelated(items + push, src0, dst0)
    ensures items != [] ==> AllRelated(items[..|items| - 1], src0, dst0) && Related(items[|items| - 1], src0, dst0)
  {
  }

  /** `gather_archive_data` from a given worklist on. */
  function DataRun(fs: Fs, src0: Path, dst0: Path, items: seq<Item>, st: State): Result
    requires AllRelated(items, src0, dst0)
    decreases Untouched(fs, src0, dst0, st), |items|
  {
    hide DataRound, Untouched, Related;
    if items == [] then Result(st, Ok)
    else
      var item, rest := items[|items| - 1], items[..|items| - 1];
      RelatedConcat(items, [], src0, dst0);
      var r := DataRound(fs, st, item);
      if r.out.Err? then Result(r.st, r.out)
      else
        RoundMeasure(fs, st, item, src0, dst0);
        PushRelated(fs, st, item, src0, dst0);
        RelatedConcat(rest, r.push, src0, dst0);
        DataRun(fs, src0, dst0, rest + r.push, r.st)
  }

  /** The definition of `DataRun`, one round at a time. */
  lemma {:induction false} DataStepIs(fs: Fs, src0: Path, dst0: Path, rest: seq<Item>, item: Item, st: State)
    requires AllRelated(rest, src0, dst0) && Related(item, src0, dst0)
    ensures var r := DataRound(fs, st, item);
            && AllRelated(rest + [item], src0, dst0) && AllRelated(rest + r.push, src0, dst0)
            && (r.out.Err? ==> DataRun(fs, src0, dst0, rest + [item], st) == Result(r.st, r.out))
            && (r.out.Ok? ==> DataRun(fs, src0, dst0, rest + [item], st) == DataRun(fs, src0, dst0, rest + r.push, r.st))
            && Untouched(fs, src0, dst0, r.st) <= Untouched(fs, src0, dst0, st)
            && (r.push != [] ==> Untouched(fs, src0, dst0, r.st) < Untouched(fs, src0, dst0, st))
  {
    hide DataRound, Untouched, Related;
    var items := rest + [item];
    assert items[|items| - 1] == item && items[..|items| - 1] == rest;
    RoundMeasure(fs, st, item, src0, dst0);
    PushRelated(fs, st, item, src0, dst0);
    RelatedConcat(rest, DataRound(fs, st, item).push, src0, dst0);
    RelatedConcat(rest, [item], src0, dst0);
  }

  lemma {:induction false} DataExt(fs: Fs, src0: Path, dst0: Path, items: seq<Item>, st: State)
    requires AllRelated(items, src0, dst0)
    ensures Ext(st, DataRun(fs, src0, dst0, items, st).st)
    decreases Untouched(fs, src0, dst0, st), |items|
  {
    hide Ext, DataRound, Untouched, Related, DataRun, AllRelated;
    ExtSelf(st);
    if items == [] {
      DataEmpty(fs, src0, dst0, st);
    } else {
      var item, rest := items[|items| - 1], items[..|items| - 1];
      assert items == rest + [item];
      RelatedConcat(items, items, src0, dst0);
      DataStepIs(fs, src0, dst0, rest, item, st);
      DataRoundExt(fs, st, item);
      var r := DataRound(fs, st, item);
      if r.out.Ok? {
        DataExt(fs, src0, dst0, rest + r.push, r.st);
        ExtTrans(st, r.st, DataRun(fs, src0, dst0, rest + r.push, r.st).st);
      }
    }
  }

  lemma DataEmpty(fs: Fs, src0: Path, dst0: Path, st: State)
    ensures DataRun(fs, src0, dst0, [], st) == Result(st, Ok)
  {
  }

  ghost predicate ItemsReady(st: State, items: seq<Item>) {
    forall i :: 0 <= i < |items| ==> ItemReady(st, items[i])
  }

  lemma {:induction false} DataParents(fs: Fs, src0: Path, dst0: Path, items: seq<Item>, st: State)
    requires AllRelated(items, src0, dst0) && ParentsFirst(st) && ItemsReady(st, items)
    ensures ParentsFirst(DataRun(fs, src0, dst0, items, st).st)
    decreases Untouched(fs, src0, dst0, st), |items|
  {
    hide Ext, DataRound, Untouched, Related, DataRun, AllRelated, ParentsFirst, ItemReady;
    if items == [] {
      DataEmpty(fs, src0, dst0, st);
    } else {
      var item, rest := items[|items| - 1], items[..|items| - 1];
      assert items == rest + [item];
      RelatedConcat(items, items, src0, dst0);
      DataStepIs(fs, src0, dst0, rest, item, st);
      DataRoundExt(fs, st, item);
      DataRoundParents(fs, st, item);
      var r := DataRound(fs, st, item);
      if r.out.Ok? {
        forall i | 0 <= i < |rest| ensures ItemReady(r.st, rest[i]) {
          assert rest[i] == items[i];
          ItemReadyKept(st, r.st, rest[i]);
        }
        DataParents(fs, src0, dst0, rest + r.push, r.st);
      }
    }
  }

  // ---- the recursive listing ----------------------------------------------

  datatype Listing = Listing(entries: seq<LogEntry>, out: Status)

  function Below(fs: Fs, src: Path): set<Path> { set p | p in fs.nodes && Under(src, p) }

  function Child(p: Path, name: Bytes): Path { p.(comps := p.comps + [name]) }

  lemma ChildBelow(fs: Fs, src: Path, name: Bytes)
    requires src in fs.nodes
    ensures Below(fs, Child(src, name)) < Below(fs, src)
  {
    assert src in Below(fs, src) && src !in Below(fs, Child(src, name));
  }

  /** The source tree in preorder: a directory, then its children from the last
      name down; a destination that was seen cuts off everything beneath it. */
  function Tree(fs: Fs, src: Path, dst: Path, seen: set<Path>): Listing
    decreases Below(fs, src), 1, 0
  {
    if src !in fs.nodes then Listing([], Err(NotFound))
    else
      var node := fs.nodes[src];
      match MdFrom(CUT_PROPS, node.stat)
      case None => Listing([], Err(Other))
      case Some(md) =>
        var call := DataCall(dst, node, md);
        if dst in seen then Listing([], Ok)
        else if !Accepted(call) then Listing([], Err(Other))
        else
          var e := LogEntry(dst, call, Copied(src));
          if TypeOf(md.mode) == IFDIR then
            var f := Forest(fs, src, dst, Sort(node.children), seen);
            Listing([e] + f.entries, f.out)
          else Listing([e], Ok)
  }

  function Forest(fs: Fs, src: Path, dst: Path, names: seq<Bytes>, seen: set<Path>): Listing
    requires src in fs.nodes
    decreases Below(fs, src), 0, |names|
  {
    if names == [] then Listing([], Ok)
    else
      var name := names[|names| - 1];
      ChildBelow(fs, src, name);
      var t := Tree(fs, Child(src, name), Child(dst, name), seen);
      if t.out.Err? then t
      else
        var f := Forest(fs, src, dst, names[..|names| - 1], seen);
        Listing(t.entries + f.entries, f.out)
  }

  predicate SameUnder(top: Path, a: set<Path>, b: set<Path>) {
    && (forall q :: q in a && Under(top, q) ==> q in b)
    && (forall q :: q in b && Under(top, q) ==> q in a)
  }

  /** Only the seen paths below its own destination matter to a listing. */
  lemma {:induction false} TreeLocal(fs: Fs, src: Path, dst: Path, a: set<Path>, b: set<Path>)
    requires SameUnder(dst, a, b)
    ensures Tree(fs, src, dst, a) == Tree(fs, src, dst, b)
    decreases Below(fs, src), 1, 0
  {
    hide MdFrom, DataCall, Accepted, Sort, Below;
    assert dst in a <==> dst in b;
    if src in fs.nodes {
      var names := Sort(fs.nodes[src].children);
      forall k | 0 <= k < |names| ensures SameUnder(Child(dst, names[k]), a, b) {
        ChildUnder(dst, names[k]);
      }
      ForestLocal(fs, src, dst, names, a, b);
    }
  }

  lemma ChildUnder(dst: Path, name: Bytes)
    ensures forall q :: Under(Child(dst, name), q) ==> Under(dst, q) && q != dst
  {
  }

  lemma {:induction false} ForestLocal(fs: Fs, src: Path, dst: Path, names: seq<Bytes>, a: set<Path>, b: set<Path>)
    requires src in fs.nodes
    requires forall k :: 0 <= k < |names| ==> SameUnder(Child(dst, names[k]), a, b)
    ensures Forest(fs, src, dst, names, a) == Forest(fs, src, dst, names, b)
    decreases Below(fs, src), 0, |names|
  {
    hide Tree, SameUnder, Below;
    if names != [] {
      var name := names[|names| - 1];
      ChildBelow(fs, src, name);
      TreeLocal(fs, Child(src, name), Child(dst, name), a, b);
      ForestLocal(fs, src, dst, names[..|names| - 1], a, b);
    }
  }
}
