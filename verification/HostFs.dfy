/** The host file system as rapido-cut (src/bin/rapido-cut.rs) sees it: a fixed
    finite map from paths to nodes, with paths as sequences of components. */
module HostFs {
  import opened Strings
  import opened Newc
  import opened ArchiveName
  import opened Cpio

  /** A path, compared by components as Rust's `PathBuf` is. ".." is kept. */
  datatype Path = Path(absolute: bool, comps: seq<Bytes>)

  const DOT_DOT: Bytes := [DOT, DOT]

  function Parent(p: Path): Option<Path> {
    if p.comps == [] then None else Some(p.(comps := p.comps[..|p.comps| - 1]))
  }

  /** `join` with a text that is not absolute. */
  function Join(dir: Path, name: Bytes): Path {
    dir.(comps := dir.comps + Components(name))
  }

  function ParsePath(text: Bytes): Path {
    Path(text != [] && text[0] == SLASH, Components(text))
  }

  /** `path::absolute`, which refuses the empty text. */
  function Absolute(cwd: Path, text: Bytes): Option<Path> {
    if text == [] then None
    else if text[0] == SLASH then Some(Path(true, Components(text)))
    else Some(Path(true, cwd.comps + Components(text)))
  }

  function JoinComps(comps: seq<Bytes>): Bytes {
    if comps == [] then [] else [SLASH] + comps[0] + JoinComps(comps[1..])
  }

  /** An absolute path as text. */
  function Render(p: Path): Bytes {
    if p.comps == [] then [SLASH] else JoinComps(p.comps)
  }

  /** Free of "..". */
  predicate Plain(p: Path) { DOT_DOT !in p.comps }

  /** The dynamic section of a file: not an ELF file, or its library search paths
      and needed names; None among those is a name that cannot be read. */
  datatype Elf = NotElf | Elf(runpaths: seq<Bytes>, needed: seq<Option<Bytes>>)

  /** `children` are the names in a directory, `target` and `canon` the text and
      the canonical path of a symlink, None when it dangles. */
  datatype Node = Node(stat: Stat, content: Bytes, children: seq<Bytes>, target: Bytes, canon: Option<Path>, elf: Elf)

  datatype Fs = Fs(nodes: map<Path, Node>, cwd: Path)

  // ---- sorting directory entries ------------------------------------------

  predicate Less(a: Bytes, b: Bytes) {
    b != [] && (a == [] || a[0] < b[0] || (a[0] == b[0] && Less(a[1..], b[1..])))
  }

  function Insert(x: Bytes, s: seq<Bytes>): seq<Bytes> {
    if s == [] || !Less(s[0], x) then [x] + s else [s[0]] + Insert(x, s[1..])
  }

  function Sort(s: seq<Bytes>): seq<Bytes> {
    if s == [] then [] else Insert(s[0], Sort(s[1..]))
  }

  predicate Sorted(s: seq<Bytes>) {
    forall i, j :: 0 <= i < j < |s| ==> !Less(s[j], s[i])
  }

  /** Names are ordered by their first difference, and a name before its extensions. */
  lemma {:induction false} LessExact(a: Bytes, b: Bytes)
    ensures Less(a, b) <==> exists k: nat :: DiffersAt(a, b, k)
    decreases |a|
  {
    if a == [] || b == [] || a[0] != b[0] {
      if Less(a, b) { assert DiffersAt(a, b, 0); }
    } else {
      LessExact(a[1..], b[1..]);
      if k: nat :| DiffersAt(a[1..], b[1..], k) { assert DiffersAt(a, b, k + 1); }
      if k: nat :| DiffersAt(a, b, k) {
        assert k > 0 && a[1..][..k - 1] == a[..k][1..] && b[1..][..k - 1] == b[..k][1..];
        assert DiffersAt(a[1..], b[1..], k - 1);
      }
    }
  }

  predicate DiffersAt(a: Bytes, b: Bytes, k: nat) {
    k <= |a| && k < |b| && a[..k] == b[..k] && (k == |a| || a[k] < b[k])
  }

  lemma {:induction false} LessAsymmetric(a: Bytes, b: Bytes)
    requires Less(a, b)
    ensures !Less(b, a)
    decreases |a|
  {
    if a != [] && a[0] == b[0] { LessAsymmetric(a[1..], b[1..]); }
  }

  /** `!Less(b, a)` is a total preorder: it is transitive. */
  lemma {:induction false} AtMostTransitive(a: Bytes, b: Bytes, c: Bytes)
    requires !Less(b, a) && !Less(c, b)
    ensures !Less(c, a)
    decreases |a|
  {
    if a != [] && b != [] && c != [] && a[0] == b[0] == c[0] {
      AtMostTransitive(a[1..], b[1..], c[1..]);
    }
  }

  lemma {:induction false} InsertKeeps(x: Bytes, s: seq<Bytes>)
    ensures multiset(Insert(x, s)) == multiset(s) + multiset{x}
    decreases |s|
  {
    hide Less;
    if s != [] && Less(s[0], x) {
      InsertKeeps(x, s[1..]);
      assert s == [s[0]] + s[1..];
    }
  }

  lemma {:induction false} InsertSorted(x: Bytes, s: seq<Bytes>)
    requires Sorted(s)
    ensures Sorted(Insert(x, s))
    decreases |s|
  {
    hide Less;
    var r := Insert(x, s);
    if s == [] || !Less(s[0], x) {
      assert [x] + s == r;
      forall j | 0 < j < |r| ensures !Less(r[j], x) {
        if j > 1 { AtMostTransitive(x, s[0], s[j - 1]); }
      }
    } else {
      var t := Insert(x, s[1..]);
      InsertSorted(x, s[1..]);
      LessAsymmetric(s[0], x);
      InsertKeeps(x, s[1..]);
      forall j | 0 < j < |r| ensures !Less(r[j], s[0]) {
        assert r[j] == t[j - 1] && r[j] in multiset(t);
        assert r[j] == x || r[j] in s[1..];
      }
    }
  }

  /** Sorting keeps every name, with its number of occurrences. */
  lemma {:induction false} SortSorts(s: seq<Bytes>)
    ensures Sorted(Sort(s)) && multiset(Sort(s)) == multiset(s)
    decreases |s|
  {
    if s != [] {
      SortSorts(s[1..]);
      InsertSorted(s[0], Sort(s[1..]));
      InsertKeeps(s[0], Sort(s[1..]));
      assert s == [s[0]] + s[1..];
    }
  }

  // ---- text and components ------------------------------------------------

  /** A component as it occurs in real paths. */
  predicate IsComp(c: Bytes) { c != [] && c != [DOT] && SLASH !in c }

  predicate CompsOk(comps: seq<Bytes>) { forall i :: 0 <= i < |comps| ==> IsComp(comps[i]) }

  lemma {:induction false} SlashFree(c: Bytes, acc: Bytes)
    requires SLASH !in c
    ensures ComponentsFrom(c, acc) == Own(acc + c)
    decreases |c|
  {
    if c == [] {
      assert acc + c == acc;
    } else {
      SlashFree(c[1..], acc + [c[0]]);
      assert acc + [c[0]] + c[1..] == acc + c;
    }
  }

  /** Text round trip of absolute paths. */
  lemma {:induction false} RenderParses(comps: seq<Bytes>)
    requires CompsOk(comps)
    ensures Components(JoinComps(comps)) == comps
    decreases |comps|
  {
    if comps != [] {
      var c, rest := comps[0], comps[1..];
      RenderParses(rest);
      SlashFree(c, []);
      assert [] + c == c;
      var text := JoinComps(comps);
      assert text == [SLASH] + (c + JoinComps(rest));
      assert text[1..] == c + JoinComps(rest);
      assert Components(text) == [] + Components(c + JoinComps(rest));
      CompThenRest(c, rest);
    }
  }

  lemma {:induction false} CompThenRest(c: Bytes, rest: seq<Bytes>)
    requires IsComp(c) && CompsOk(rest) && Components(JoinComps(rest)) == rest && Components(c) == [c]
    ensures Components(c + JoinComps(rest)) == [c] + rest
  {
    if rest == [] {
      assert c + JoinComps(rest) == c;
    } else {
      var tail := rest[0] + JoinComps(rest[1..]);
      assert JoinComps(rest) == [SLASH] + tail;
      assert c + JoinComps(rest) == c + [SLASH] + tail;
      ComponentsSplit(c, tail, []);
      assert JoinComps(rest)[1..] == tail;
      assert Components(JoinComps(rest)) == [] + Components(tail);
    }
  }

  lemma {:induction false} AbsoluteRender(cwd: Path, p: Path)
    requires p.absolute && CompsOk(p.comps)
    ensures Absolute(cwd, Render(p)) == Some(p) && SLASH in Render(p)
  {
    RenderParses(p.comps);
    if p.comps == [] {
      var s: Bytes := [SLASH];
      assert s[1..] == [];
      assert ComponentsFrom(s, []) == Own([]) + ComponentsFrom(s[1..], []);
    } else {
      assert Render(p)[0] == SLASH;
    }
  }

  /** A relative name is one below the working directory. */
  lemma {:induction false} AbsoluteRelative(cwd: Path, comps: seq<Bytes>)
    requires CompsOk(comps) && comps != []
    ensures Absolute(cwd, JoinComps(comps)[1..]) == Some(Path(true, cwd.comps + comps))
  {
    hide Components;
    var text := JoinComps(comps);
    assert IsComp(comps[0]);
    assert text[1..][0] == comps[0][0];
    RenderParses(comps);
    SkipHead(text);
  }

  /** A name in a directory. */
  lemma {:induction false} JoinName(p: Path, name: Bytes)
    requires p.absolute && CompsOk(p.comps) && IsComp(name)
    ensures Join(ParsePath(Render(p)), name) == Path(true, p.comps + [name])
  {
    hide Components;
    AbsoluteRender(p, p);
    NameAlone(name);
  }

  lemma NameAlone(name: Bytes)
    requires IsComp(name)
    ensures Components(name) == [name]
  {
    SlashFree(name, []);
    assert [] + name == name;
  }
}
