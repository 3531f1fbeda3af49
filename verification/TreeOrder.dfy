/** What the listing of a tree (src/bin/rapido-cut.rs) holds, and in which order. */
module TreeOrder {
  import opened Strings
  import opened Newc
  import opened Cpio
  import opened HostFs
  import opened Gather
  import opened ElfWorklist
  import opened TreeWorklist
  import opened TreeListing

  // ---- everything is listed -----------------------------------------------

  /** Names lead from `src` down through directories to a file. */
  predicate LeadsDown(fs: Fs, src: Path, names: seq<Bytes>)
    decreases |names|
  {
    src in fs.nodes &&
    (names != [] ==> IsDirectory(fs.nodes[src]) && names[0] in fs.nodes[src].children && LeadsDown(fs, Child(src, names[0]), names[1..]))
  }

  function Down(p: Path, names: seq<Bytes>): Path { p.(comps := p.comps + names) }

  predicate Lists(entries: seq<LogEntry>, src: Path, dst: Path) {
    exists i :: 0 <= i < |entries| && entries[i].dst == dst && entries[i].origin == Copied(src)
  }

  predicate Untouched(seen: set<Path>, dst: Path) { forall q :: q in seen ==> !Under(dst, q) }

  lemma ListsMore(a: seq<LogEntry>, b: seq<LogEntry>, src: Path, dst: Path)
    ensures Lists(a, src, dst) ==> Lists(a + b, src, dst)
    ensures Lists(b, src, dst) ==> Lists(a + b, src, dst)
  {
    if i :| 0 <= i < |a| && a[i].dst == dst && a[i].origin == Copied(src) { assert (a + b)[i] == a[i]; }
    if i :| 0 <= i < |b| && b[i].dst == dst && b[i].origin == Copied(src) { assert (a + b)[|a| + i] == b[i]; }
  }

  lemma {:induction false} ForestHas(fs: Fs, src: Path, dst: Path, names: seq<Bytes>, seen: set<Path>, c: Bytes, x: Path, y: Path)
    requires src in fs.nodes && c in names && Forest(fs, src, dst, names, seen).out.Ok?
    ensures var t := Tree(fs, Child(src, c), Child(dst, c), seen);
            t.out.Ok? && (Lists(t.entries, x, y) ==> Lists(Forest(fs, src, dst, names, seen).entries, x, y))
    decreases |names|
  {
    hide Tree, Lists;
    var n := |names| - 1;
    var t := Tree(fs, Child(src, names[n]), Child(dst, names[n]), seen);
    var f := Forest(fs, src, dst, names[..n], seen);
    ListsMore(t.entries, f.entries, x, y);
    if c != names[n] {
      assert c in names[..n];
      ForestHas(fs, src, dst, names[..n], seen, c, x, y);
    }
  }

  /** A tree none of whose destinations was seen is archived completely: every file that
      names lead to has its entry at the same place below the destination. */
  lemma {:induction false} TreeComplete(fs: Fs, src: Path, dst: Path, seen: set<Path>, names: seq<Bytes>)
    requires Tree(fs, src, dst, seen).out.Ok? && Untouched(seen, dst) && LeadsDown(fs, src, names)
    ensures Lists(Tree(fs, src, dst, seen).entries, Down(src, names), Down(dst, names))
    decreases |names|
  {
    hide Forest, Sort, DataCall, Accepted, MdFrom, Lists;
    var node := fs.nodes[src];
    assert Under(dst, dst);
    var md := MdFrom(CUT_PROPS, node.stat).value;
    var e := LogEntry(dst, DataCall(dst, node, md), Copied(src));
    var t := Tree(fs, src, dst, seen);
    assert t.entries[0] == e;
    if names == [] {
      assert Down(src, names) == src && Down(dst, names) == dst;
      FirstListed(t.entries);
    } else {
      var c := names[0];
      ModeKept(node.stat, md);
      var f := Forest(fs, src, dst, Sort(node.children), seen);
      assert t == Listing([e] + f.entries, f.out);
      SortHas(node.children, c);
      assert Down(Child(src, c), names[1..]) == Down(src, names);
      assert Down(Child(dst, c), names[1..]) == Down(dst, names);
      ForestHas(fs, src, dst, Sort(node.children), seen, c, Down(src, names), Down(dst, names));
      assert Untouched(seen, Child(dst, c));
      TreeComplete(fs, Child(src, c), Child(dst, c), seen, names[1..]);
      ListsMore([e], f.entries, Down(src, names), Down(dst, names));
    }
  }

  lemma FirstListed(entries: seq<LogEntry>)
    requires entries != [] && entries[0].origin.Copied?
    ensures Lists(entries, entries[0].origin.src, entries[0].dst)
  {
  }

  lemma ModeKept(s: Stat, md: Md)
    requires MdFrom(CUT_PROPS, s) == Some(md)
    ensures md.mode == s.mode
  {
  }

  lemma SortHas(names: seq<Bytes>, c: Bytes)
    requires c in names
    ensures c in Sort(names)
  {
    hide Sort;
    SortSorts(names);
    assert c in multiset(names) && c in multiset(Sort(names));
  }

  // ---- directories first, siblings in descending order --------------------

  /** The name below `dst` that an entry belongs to. */
  function NameBelow(dst: Path, e: LogEntry): Bytes
    requires |e.dst.comps| > |dst.comps|
  {
    e.dst.comps[|dst.comps|]
  }

  ghost predicate BelowNames(dst: Path, entries: seq<LogEntry>, names: seq<Bytes>) {
    forall i :: 0 <= i < |entries| ==> |entries[i].dst.comps| > |dst.comps| && NameBelow(dst, entries[i]) in names
  }

  ghost predicate Descends(dst: Path, entries: seq<LogEntry>) {
    && (forall i :: 0 <= i < |entries| ==> |entries[i].dst.comps| > |dst.comps|)
    && (forall i, j :: 0 <= i < j < |entries| ==> !Less(NameBelow(dst, entries[i]), NameBelow(dst, entries[j])))
  }

  ghost predicate AllNamed(dst: Path, entries: seq<LogEntry>, name: Bytes) {
    forall i :: 0 <= i < |entries| ==> |entries[i].dst.comps| > |dst.comps| && NameBelow(dst, entries[i]) == name
  }

  lemma {:induction false} SubtreeName(fs: Fs, src: Path, dst: Path, seen: set<Path>, name: Bytes)
    ensures AllNamed(dst, Tree(fs, Child(src, name), Child(dst, name), seen).entries, name)
  {
    hide Tree;
    TreeUnder(fs, Child(src, name), Child(dst, name), seen);
  }

  /** Entries below one name, then entries below names that are not greater. */
  lemma {:induction false} ConcatDescends(dst: Path, a: seq<LogEntry>, name: Bytes, b: seq<LogEntry>, names: seq<Bytes>)
    requires AllNamed(dst, a, name)
    requires BelowNames(dst, b, names) && Descends(dst, b) && forall k :: 0 <= k < |names| ==> !Less(name, names[k])
    ensures BelowNames(dst, a + b, names + [name]) && Descends(dst, a + b)
  {
    hide Less, NameBelow;
    var all := a + b;
    LessIrreflexive(name);
    forall i | 0 <= i < |all|
      ensures |all[i].dst.comps| > |dst.comps| && NameBelow(dst, all[i]) in names + [name]
    {
      if i < |a| { assert all[i] == a[i] && (names + [name])[|names|] == name; } else { assert all[i] == b[i - |a|]; }
    }
    forall i, j | 0 <= i < j < |all| ensures !Less(NameBelow(dst, all[i]), NameBelow(dst, all[j])) {
      if i >= |a| {
        assert all[i] == b[i - |a|] && all[j] == b[j - |a|];
      } else if j >= |a| {
        assert all[i] == a[i] && all[j] == b[j - |a|] && NameBelow(dst, b[j - |a|]) in names;
      } else {
        assert all[i] == a[i] && all[j] == a[j];
      }
    }
  }

  lemma {:induction false} ForestDescends(fs: Fs, src: Path, dst: Path, names: seq<Bytes>, seen: set<Path>)
    requires src in fs.nodes && Sorted(names)
    ensures BelowNames(dst, Forest(fs, src, dst, names, seen).entries, names)
    ensures Descends(dst, Forest(fs, src, dst, names, seen).entries)
    decreases |names|
  {
    hide Tree, Less, NameBelow, BelowNames, Descends, AllNamed;
    NothingDescends(dst);
    if names != [] {
      var n := |names| - 1;
      var t := Tree(fs, Child(src, names[n]), Child(dst, names[n]), seen);
      var f := Forest(fs, src, dst, names[..n], seen);
      SubtreeName(fs, src, dst, seen, names[n]);
      ForestDescends(fs, src, dst, names[..n], seen);
      assert names[..n] + [names[n]] == names;
      if t.out.Ok? {
        ConcatDescends(dst, t.entries, names[n], f.entries, names[..n]);
      } else {
        NothingBelow(dst, names[..n]);
        ConcatDescends(dst, t.entries, names[n], [], names[..n]);
        assert t.entries + [] == t.entries;
      }
    } else {
      NothingBelow(dst, names);
    }
  }

  lemma NothingBelow(dst: Path, names: seq<Bytes>)
    ensures BelowNames(dst, [], names)
  {
  }

  lemma LessIrreflexive(a: Bytes)
    ensures !Less(a, a)
    decreases |a|
  {
  }

  /** A directory stands before its contents, and those are ordered by descending name of
      the child they belong to. */
  lemma {:induction false} TreeDescends(fs: Fs, src: Path, dst: Path, seen: set<Path>)
    requires Tree(fs, src, dst, seen).entries != []
    ensures var t := Tree(fs, src, dst, seen).entries; t[0].dst == dst && Descends(dst, t[1..])
  {
    hide Forest, Sort, Descends, Less;
    var node := fs.nodes[src];
    SortSorts(node.children);
    ForestDescends(fs, src, dst, Sort(node.children), seen);
    var t := Tree(fs, src, dst, seen).entries;
    var f := Forest(fs, src, dst, Sort(node.children), seen).entries;
    assert t[1..] == f || t[1..] == [];
    NothingDescends(dst);
  }

  lemma NothingDescends(dst: Path)
    ensures Descends(dst, [])
  {
  }
}
