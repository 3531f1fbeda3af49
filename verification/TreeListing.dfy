/** The tree worklist archives exactly the recursive listing. */
module TreeListing {
  import opened Strings
  import opened Newc
  import opened Cpio
  import opened HostFs
  import opened Gather
  import opened GatherOnce
  import opened GatherParents
  import opened TreeWorklist

  predicate Distinct(names: seq<Bytes>) {
    forall i, j :: 0 <= i < j < |names| ==> names[i] != names[j]
  }

  /** Directories list every name once. */
  predicate ProperDirs(fs: Fs) { forall p :: p in fs.nodes ==> Distinct(fs.nodes[p].children) }

  lemma {:induction false} DistinctFirst(s: seq<Bytes>)
    requires s != []
    ensures Distinct(s) <==> s[0] !in s[1..] && Distinct(s[1..])
  {
    var t := s[1..];
    if Distinct(s) {
      forall i, j | 0 <= i < j < |t| ensures t[i] != t[j] { assert t[i] == s[i + 1] && t[j] == s[j + 1]; }
    }
    if s[0] !in t && Distinct(t) {
      forall i, j | 0 <= i < j < |s| ensures s[i] != s[j] {
        if i == 0 { assert s[j] in t; } else { assert t[i - 1] != t[j - 1]; }
      }
    }
  }

  predicate Single(m: multiset<Bytes>) { forall x :: x in m ==> m[x] == 1 }

  lemma SingleFirst(x: Bytes, m: multiset<Bytes>)
    ensures Single(multiset{x} + m) <==> x !in m && Single(m)
  {
    var n := multiset{x} + m;
    assert n[x] == 1 + m[x];
    if Single(n) {
      forall y | y in m ensures m[y] == 1 { assert n[y] == 1; }
    }
  }

  lemma {:induction false} DistinctMultiset(s: seq<Bytes>)
    ensures Distinct(s) <==> Single(multiset(s))
    decreases |s|
  {
    hide Distinct, Single;
    if s == [] {
      assert Distinct(s) && Single(multiset(s)) by { NoneDistinct(s); }
    } else {
      var x, t := s[0], s[1..];
      assert s == [x] + t;
      assert multiset(s) == multiset{x} + multiset(t);
      DistinctMultiset(t);
      DistinctFirst(s);
      SingleFirst(x, multiset(t));
    }
  }

  lemma NoneDistinct(s: seq<Bytes>)
    requires s == []
    ensures Distinct(s) && Single(multiset(s))
  {
  }

  lemma {:induction false} SortDistinct(names: seq<Bytes>)
    requires Distinct(names)
    ensures Distinct(Sort(names))
  {
    SortSorts(names);
    DistinctMultiset(names);
    DistinctMultiset(Sort(names));
  }

  function Dsts(entries: seq<LogEntry>): set<Path> { set i | 0 <= i < |entries| :: entries[i].dst }

  /** A state with a listing archived behind it. */
  function Advance(st: State, entries: seq<LogEntry>): State {
    st.(log := st.log + entries, seen := st.seen + Dsts(entries))
  }

  lemma {:induction false} AdvanceTwice(st: State, a: seq<LogEntry>, b: seq<LogEntry>)
    ensures Advance(Advance(st, a), b) == Advance(st, a + b)
  {
    assert st.log + a + b == st.log + (a + b);
    forall p ensures p in Dsts(a) + Dsts(b) <==> p in Dsts(a + b) {
      if p in Dsts(a) { var i :| 0 <= i < |a| && a[i].dst == p; assert (a + b)[i].dst == p; }
      if p in Dsts(b) { var i :| 0 <= i < |b| && b[i].dst == p; assert (a + b)[|a| + i].dst == p; }
    }
    assert st.seen + Dsts(a) + Dsts(b) == st.seen + Dsts(a + b);
  }

  lemma AdvanceNone(st: State)
    ensures Advance(st, []) == st
  {
    assert st.log + [] == st.log;
  }

  predicate AllUnder(top: Path, entries: seq<LogEntry>) {
    forall i :: 0 <= i < |entries| ==> Under(top, entries[i].dst)
  }

  lemma AllUnderConcat(top: Path, a: seq<LogEntry>, b: seq<LogEntry>)
    requires AllUnder(top, a) && AllUnder(top, b)
    ensures AllUnder(top, a + b)
  {
  }

  /** A listing stays below its root. */
  lemma {:induction false} TreeUnder(fs: Fs, src: Path, dst: Path, seen: set<Path>)
    ensures AllUnder(dst, Tree(fs, src, dst, seen).entries)
    decreases Below(fs, src), 1, 0
  {
    hide MdFrom, DataCall, Accepted, Sort, Below, Forest;
    var t := Tree(fs, src, dst, seen);
    if t.entries != [] {
      var names := Sort(fs.nodes[src].children);
      ForestUnder(fs, src, dst, names, seen);
      AllUnderConcat(dst, [t.entries[0]], Forest(fs, src, dst, names, seen).entries);
    }
  }

  lemma {:induction false} ForestUnder(fs: Fs, src: Path, dst: Path, names: seq<Bytes>, seen: set<Path>)
    requires src in fs.nodes
    ensures AllUnder(dst, Forest(fs, src, dst, names, seen).entries)
    decreases Below(fs, src), 0, |names|
  {
    hide Tree, Below;
    if names != [] {
      var name, init := names[|names| - 1], names[..|names| - 1];
      ChildBelow(fs, src, name);
      var t := Tree(fs, Child(src, name), Child(dst, name), seen);
      TreeUnder(fs, Child(src, name), Child(dst, name), seen);
      ChildUnder(dst, name);
      assert AllUnder(dst, t.entries);
      ForestUnder(fs, src, dst, init, seen);
      AllUnderConcat(dst, t.entries, Forest(fs, src, dst, init, seen).entries);
    }
  }

  lemma {:induction false} ChildItemsSnoc(src: Path, dst: Path, names: seq<Bytes>)
    requires names != []
    ensures ChildItems(src, dst, names) ==
            ChildItems(src, dst, names[..|names| - 1]) + [ChildItem(src, dst, names[|names| - 1])]
  {
    ChildItemsAt(src, dst, names);
    ChildItemsAt(src, dst, names[..|names| - 1]);
  }

  /** What processing a listing does to the rest of the worklist. */
  ghost predicate Refines(fs: Fs, src0: Path, dst0: Path, items: seq<Item>, rest: seq<Item>, st: State, t: Listing)
    requires AllRelated(items, src0, dst0) && AllRelated(rest, src0, dst0)
  {
    var r := DataRun(fs, src0, dst0, items, st);
    && (t.out.Ok? ==> r == DataRun(fs, src0, dst0, rest, Advance(st, t.entries)))
    && (t.out.Err? ==> r.out == t.out && r.st.log == st.log + t.entries)
  }

  /** One round on an item whose parents need no check. */
  lemma {:induction false} PlainRound(fs: Fs, st: State, item: Item)
    requires item.ignoreParent
    ensures var r := DataRound(fs, st, item);
            var t := Tree(fs, item.src, item.dst, st.seen);
            && (r.push == [] && r.out.Ok? ==> t.out.Ok? && r.st == Advance(st, t.entries))
            && (r.push == [] && r.out.Err? ==> t.out == r.out && t.entries == [] && r.st.log == st.log)
            && (r.push != [] ==>
                && item.src in fs.nodes && item.dst !in st.seen && r.out.Ok?
                && var names := Sort(fs.nodes[item.src].children);
                   var f := Forest(fs, item.src, item.dst, names, st.seen);
                && r.push == ChildItems(item.src, item.dst, names)
                && |r.st.log| > |st.log|
                && var e := r.st.log[|st.log|];
                && e.dst == item.dst && r.st == Advance(st, [e]) && t == Listing([e] + f.entries, f.out))
  {
    hide MdFrom, DataCall, Accepted, Sort, Forest, ChildItems;
    AdvanceNone(st);
    if item.src in fs.nodes && item.dst !in st.seen {
      var node := fs.nodes[item.src];
      var md := MdFrom(CUT_PROPS, node.stat);
      if md.Some? {
        var e := LogEntry(item.dst, DataCall(item.dst, node, md.value), Copied(item.src));
        assert Dsts([e]) == {item.dst} by { assert [e][0].dst == item.dst; }
        EmptyForest(fs, item.src, item.dst, st.seen);
        ChildItemsAt(item.src, item.dst, Sort(node.children));
        assert [e] + [] == [e];
      }
    }
  }

  lemma EmptyForest(fs: Fs, src: Path, dst: Path, seen: set<Path>)
    requires src in fs.nodes
    ensures Forest(fs, src, dst, [], seen) == Listing([], Ok)
  {
  }

  lemma {:induction false} TreeRefines(fs: Fs, src0: Path, dst0: Path, rest: seq<Item>, item: Item, st: State)
    requires ProperDirs(fs) && AllRelated(rest, src0, dst0) && Related(item, src0, dst0) && item.ignoreParent
    ensures AllRelated(rest + [item], src0, dst0)
    ensures Refines(fs, src0, dst0, rest + [item], rest, st, Tree(fs, item.src, item.dst, st.seen))
    decreases Below(fs, item.src), 1, 0
  {
    hide DataRound, Tree, Forest, DataRun, AllRelated, Sort, ChildItems, Advance, Below, Untouched;
    var r := DataRound(fs, st, item);
    DataStepIs(fs, src0, dst0, rest, item, st);
    PlainRound(fs, st, item);
    if r.push == [] {
      assert rest + r.push == rest;
      if r.out.Err? { assert st.log + [] == st.log; }
    } else {
      var names := Sort(fs.nodes[item.src].children);
      SortDistinct(fs.nodes[item.src].children);
      var f := Forest(fs, item.src, item.dst, names, st.seen);
      var e := r.st.log[|st.log|];
      ForestAfterSelf(fs, item.src, item.dst, names, st, e);
      ForestRefines(fs, src0, dst0, rest, item.src, item.dst, names, r.st);
      AdvanceTwice(st, [e], f.entries);
      AdvanceLog(st, [e], f.entries);
    }
  }

  lemma AdvanceLog(st: State, a: seq<LogEntry>, b: seq<LogEntry>)
    ensures Advance(st, a).log + b == st.log + (a + b)
  {
  }

  lemma {:induction false} ForestAfterSelf(fs: Fs, src: Path, dst: Path, names: seq<Bytes>, st: State, e: LogEntry)
    requires src in fs.nodes && e.dst == dst
    ensures Forest(fs, src, dst, names, Advance(st, [e]).seen) == Forest(fs, src, dst, names, st.seen)
  {
    hide Forest;
    forall k | 0 <= k < |names| ensures SameUnder(Child(dst, names[k]), Advance(st, [e]).seen, st.seen) {
      ChildUnder(dst, names[k]);
    }
    ForestLocal(fs, src, dst, names, Advance(st, [e]).seen, st.seen);
  }

  lemma {:induction false} ForestAfterSibling(fs: Fs, src: Path, dst: Path, names: seq<Bytes>, name: Bytes, st: State, entries: seq<LogEntry>)
    requires src in fs.nodes && name !in names
    requires AllUnder(Child(dst, name), entries)
    ensures Forest(fs, src, dst, names, Advance(st, entries).seen) == Forest(fs, src, dst, names, st.seen)
  {
    hide Forest;
    var more := Advance(st, entries).seen;
    forall k | 0 <= k < |names| ensures SameUnder(Child(dst, names[k]), more, st.seen) {
      forall q | q in Dsts(entries) ensures !Under(Child(dst, names[k]), q) {
        var i :| 0 <= i < |entries| && entries[i].dst == q;
        var n := |dst.comps|;
        assert q.comps[n] == name by { assert Child(dst, name).comps[n] == name; }
      }
    }
    ForestLocal(fs, src, dst, names, more, st.seen);
  }

  lemma {:induction false} ForestRefines(fs: Fs, src0: Path, dst0: Path, rest: seq<Item>, src: Path, dst: Path, names: seq<Bytes>, st: State)
    requires ProperDirs(fs) && AllRelated(rest, src0, dst0) && src in fs.nodes && Distinct(names)
    requires Under(src0, src) && dst == Image(src0, dst0, src)
    ensures AllRelated(rest + ChildItems(src, dst, names), src0, dst0)
    ensures Refines(fs, src0, dst0, rest + ChildItems(src, dst, names), rest, st, Forest(fs, src, dst, names, st.seen))
    decreases Below(fs, src), 0, |names|
  {
    hide DataRound, Tree, DataRun, AllRelated, Advance, ChildItems, Below, Untouched, ProperDirs;
    if names == [] {
      NoChildren(src, dst);
      assert rest + [] == rest;
      AdvanceNone(st);
    } else {
      var name, init := names[|names| - 1], names[..|names| - 1];
      var item := ChildItem(src, dst, name);
      var todo := rest + ChildItems(src, dst, init);
      ChildRelated(src0, dst0, src, dst, name);
      ChildItemsSnoc(src, dst, names);
      assert rest + ChildItems(src, dst, names) == todo + [item];
      ChildBelow(fs, src, name);
      var t := Tree(fs, item.src, item.dst, st.seen);
      var st1 := Advance(st, t.entries);
      ForestRefines(fs, src0, dst0, rest, src, dst, init, st1);
      TreeRefines(fs, src0, dst0, todo, item, st);
      if t.out.Ok? {
        TreeUnder(fs, item.src, item.dst, st.seen);
        ForestAfterSibling(fs, src, dst, init, name, st, t.entries);
        var f := Forest(fs, src, dst, init, st.seen);
        AdvanceTwice(st, t.entries, f.entries);
        AdvanceLog(st, t.entries, f.entries);
      }
    }
  }

  lemma NoChildren(src: Path, dst: Path)
    ensures ChildItems(src, dst, []) == []
  {
  }

  lemma {:induction false} ChildRelated(src0: Path, dst0: Path, src: Path, dst: Path, name: Bytes)
    requires Under(src0, src) && dst == Image(src0, dst0, src)
    ensures Related(ChildItem(src, dst, name), src0, dst0)
  {
    var s := src.comps + [name];
    assert s[|src0.comps|..] == src.comps[|src0.comps|..] + [name];
  }

  // ---- manifest_tree ------------------------------------------------------

  /** The first round checks the parents; from there on it is the plain round. */
  lemma {:induction false} RootRound(fs: Fs, st: State, src: Path, dst: Path, md: Md)
    requires src in fs.nodes && MdFrom(CUT_PROPS, fs.nodes[src].stat) == Some(md) && dst !in st.seen
    ensures var dirs := Dirs(st, Parent(dst), md);
            var r := DataRound(fs, st, Item(src, dst, false));
            && dst !in dirs.st.seen
            && (dirs.out.Err? ==> r.out == dirs.out && r.st.log == dirs.st.log)
            && (dirs.out.Ok? ==> r == DataRound(fs, dirs.st, Item(src, dst, true)))
  {
    hide MdFrom, Dirs, DataCall, Accepted, Sort, ChildItems, Ext;
    DirsSee(st, dst, md);
    DirsExt(st, dst, md);
  }

  lemma {:induction false} DirsNotUnder(st: State, dst: Path, md: Md)
    ensures SameUnder(dst, Dirs(st, Parent(dst), md).st.seen, st.seen)
  {
    hide DirsFrom, ParentMd, Ext;
    var path := Parent(dst);
    if path.Some? {
      DirsFromExt(st, [], path.value.comps, ParentMd(md));
      ExtSeen(st, DirsFrom(st, [], path.value.comps, ParentMd(md)).st);
    }
  }

  function TreeRun(fs: Fs, src: Path, dst: Path, st: State): Result {
    RootRelated(src, dst);
    DataRun(fs, src, dst, [Item(src, dst, false)], st)
  }

  lemma RootRelated(src: Path, dst: Path)
    ensures AllRelated([Item(src, dst, false)], src, dst) && AllRelated([Item(src, dst, true)], src, dst)
  {
    assert src.comps[|src.comps|..] == [];
    assert dst.comps + [] == dst.comps;
  }

  /** `manifest_tree` archives the parents of its destination and then exactly the
      listing of the source tree, cut at what was already seen; the listing decides
      how it ends. */
  lemma {:induction false} TreeRunLists(fs: Fs, src: Path, dst: Path, st: State)
    requires ProperDirs(fs)
    ensures var r := TreeRun(fs, src, dst, st);
            var t := Tree(fs, src, dst, st.seen);
            if src !in fs.nodes || MdFrom(CUT_PROPS, fs.nodes[src].stat).None? || dst in st.seen
            then r == Result(st, t.out) && t.entries == []
            else
              var dirs := Dirs(st, Parent(dst), MdFrom(CUT_PROPS, fs.nodes[src].stat).value);
              if dirs.out.Err? then r.out == dirs.out && r.st.log == dirs.st.log
              else r.out == t.out && r.st.log == dirs.st.log + t.entries
                   && (t.out.Ok? ==> r.st == Advance(dirs.st, t.entries))
  {
    hide DataRun, Dirs, MdFrom, Refines, AllRelated, DataRound, Tree;
    var item := Item(src, dst, false);
    RootRelated(src, dst);
    RelatedConcat([item], [item], src, dst);
    RelatedConcat([Item(src, dst, true)], [], src, dst);
    NoneRelated(src, dst);
    DataStepIs(fs, src, dst, [], item, st);
    assert [] + [item] == [item];
    if src !in fs.nodes || MdFrom(CUT_PROPS, fs.nodes[src].stat).None? || dst in st.seen {
      BlockedRound(fs, st, src, dst);
      DataEmpty(fs, src, dst, st);
      assert [] + DataRound(fs, st, item).push == [];
    } else {
      var md := MdFrom(CUT_PROPS, fs.nodes[src].stat).value;
      var dirs := Dirs(st, Parent(dst), md);
      RootRound(fs, st, src, dst, md);
      if dirs.out.Ok? {
        DataStepIs(fs, src, dst, [], Item(src, dst, true), dirs.st);
        assert [] + [Item(src, dst, true)] == [Item(src, dst, true)];
        TreeRefines(fs, src, dst, [], Item(src, dst, true), dirs.st);
        DirsNotUnder(st, dst, md);
        TreeLocal(fs, src, dst, dirs.st.seen, st.seen);
        RefinesAlone(fs, src, dst, dirs.st, Tree(fs, src, dst, st.seen));
      }
    }
  }

  lemma NoneRelated(src: Path, dst: Path)
    ensures AllRelated([], src, dst)
  {
  }

  lemma {:induction false} BlockedRound(fs: Fs, st: State, src: Path, dst: Path)
    requires src !in fs.nodes || MdFrom(CUT_PROPS, fs.nodes[src].stat).None? || dst in st.seen
    ensures var t := Tree(fs, src, dst, st.seen);
            var r := DataRound(fs, st, Item(src, dst, false));
            r == DataStep(st, [], t.out) && t.entries == []
  {
    hide MdFrom, DataCall, Accepted, Sort, Dirs;
  }

  lemma {:induction false} RefinesAlone(fs: Fs, src: Path, dst: Path, st: State, t: Listing)
    requires AllRelated([Item(src, dst, true)], src, dst) && AllRelated([], src, dst)
    requires Refines(fs, src, dst, [Item(src, dst, true)], [], st, t)
    ensures var r := DataRun(fs, src, dst, [Item(src, dst, true)], st);
            r.out == t.out && r.st.log == st.log + t.entries && (t.out.Ok? ==> r.st == Advance(st, t.entries))
  {
    hide DataRun, AllRelated;
    DataEmpty(fs, src, dst, Advance(st, t.entries));
  }
}
