/** `path_trim_prefixes` (src/cpio/src/lib.rs): the name under which a path is
    archived. Rust's `Path::strip_prefix` works on components, so it also drops
    empty and "." components next to what it strips. */
module ArchiveName {
  import opened Newc
  import opened Strings

  const SLASH: Byte := 47
  const DOT: Byte := 46

  predicate DotHead(p: Bytes) { p != [] && p[0] == DOT && (|p| > 1 ==> p[1] == SLASH) }

  predicate DotLast(p: Bytes) { p != [] && p[|p| - 1] == DOT && (|p| > 1 ==> p[|p| - 2] == SLASH) }

  /** Drop empty and "." components at the front. */
  function TrimLeft(p: Bytes): Bytes
    decreases |p|
  {
    if p != [] && p[0] == SLASH then TrimLeft(p[1..])
    else if DotHead(p) then TrimLeft(p[1..])
    else p
  }

  /** Drop empty and "." components at the end, with their separators. */
  function TrimRight(p: Bytes): Bytes
    decreases |p|
  {
    if p != [] && p[|p| - 1] == SLASH then TrimRight(p[..|p| - 1])
    else if DotLast(p) then TrimRight(p[..|p| - 1])
    else p
  }

  /** `strip_prefix("/")`, retaining a path that consists of the prefix only. */
  function StripRoot(p: Bytes): Bytes {
    if p != [] && p[0] == SLASH then
      var r := TrimRight(TrimLeft(p[1..]));
      if r == [] then p else r
    else p
  }

  /** `strip_prefix("./")`, retaining a path that consists of the prefix only. */
  function StripDot(p: Bytes): Bytes {
    if DotHead(p) then
      var r := TrimRight(TrimLeft(p[1..]));
      if r == [] then p else r
    else p
  }

  /** The archived name, or None when it is too long. */
  function TrimPrefixes(path: Bytes): (r: Option<Bytes>)
    ensures r.Some? ==> |r.value| + 1 < PATH_MAX
  {
    var fname := StripDot(StripRoot(path));
    if |fname| + 1 >= PATH_MAX then None else Some(fname)
  }

  // ---- what trimming keeps ------------------------------------------------

  function Own(c: Bytes): seq<Bytes> { if c == [] || c == [DOT] then [] else [c] }

  /** The components behind `acc`, the part of a component read so far. */
  function ComponentsFrom(p: Bytes, acc: Bytes): seq<Bytes> {
    if p == [] then Own(acc)
    else if p[0] == SLASH then Own(acc) + ComponentsFrom(p[1..], [])
    else ComponentsFrom(p[1..], acc + [p[0]])
  }

  /** The components of a path that name something: neither empty nor ".". */
  function Components(p: Bytes): seq<Bytes> { ComponentsFrom(p, []) }

  /** Components of a path split at a separator. */
  lemma {:induction false} ComponentsSplit(a: Bytes, b: Bytes, acc: Bytes)
    ensures ComponentsFrom(a + [SLASH] + b, acc) == ComponentsFrom(a, acc) + Components(b)
    decreases |a|
  {
    var p := a + [SLASH] + b;
    if a == [] {
      assert p[1..] == b;
    } else {
      assert p[1..] == a[1..] + [SLASH] + b;
      ComponentsSplit(a[1..], b, if a[0] == SLASH then [] else acc + [a[0]]);
    }
  }

  lemma DotOnly()
    ensures Components([DOT]) == [] && Components([]) == []
  {
    var d: Bytes := [DOT];
    assert d[1..] == [] && [] + [d[0]] == d;
    assert ComponentsFrom(d, []) == ComponentsFrom(d[1..], [] + [d[0]]);
  }

  lemma {:induction false} SkipHead(p: Bytes)
    requires p != [] && (p[0] == SLASH || DotHead(p))
    ensures Components(p[1..]) == Components(p)
  {
    if p[0] != SLASH {
      assert Components(p) == ComponentsFrom(p[1..], [] + [DOT]);
      if |p| > 1 { assert p[1..][0] == SLASH; }
    }
  }

  lemma {:induction false} SkipLast(p: Bytes)
    requires p != [] && (p[|p| - 1] == SLASH || DotLast(p))
    ensures Components(p[..|p| - 1]) == Components(p)
  {
    var a := p[..|p| - 1];
    DotOnly();
    if p[|p| - 1] == SLASH {
      assert p == a + [SLASH] + [];
      ComponentsSplit(a, [], []);
    } else if |p| == 1 {
      assert p == [DOT] && a == [];
    } else {
      var b := p[..|p| - 2];
      assert p == b + [SLASH] + [DOT];
      assert a == b + [SLASH] + [];
      ComponentsSplit(b, [DOT], []);
      ComponentsSplit(b, [], []);
    }
  }

  lemma {:induction false} TrimKeeps(p: Bytes)
    ensures Components(TrimLeft(p)) == Components(p)
    ensures Components(TrimRight(p)) == Components(p)
    decreases |p|
  {
    if p != [] {
      if p[0] == SLASH || DotHead(p) {
        SkipHead(p);
        TrimKeeps(p[1..]);
      }
      if p[|p| - 1] == SLASH || DotLast(p) {
        SkipLast(p);
        TrimKeeps(p[..|p| - 1]);
      }
    }
  }

  lemma {:induction false} StripKeeps(p: Bytes)
    ensures Components(StripRoot(p)) == Components(p)
    ensures Components(StripDot(p)) == Components(p)
  {
    if p != [] && (p[0] == SLASH || DotHead(p)) {
      TrimKeeps(p[1..]);
      TrimKeeps(TrimLeft(p[1..]));
      SkipHead(p);
    }
  }

  /** Trimming changes how a path is written, never what it names: the archived
      name has the same components as the path. */
  lemma {:induction false} TrimKeepsComponents(path: Bytes)
    ensures Components(StripDot(StripRoot(path))) == Components(path)
  {
    StripKeeps(path);
    StripKeeps(StripRoot(path));
  }

  predicate Solid(p: Bytes) { p != [] && p[0] != SLASH && !DotHead(p) }

  /** No archived name starts with "/" or "./", unless there is nothing else. */
  lemma {:induction false} TrimmedIsSolid(path: Bytes)
    requires Components(path) != []
    ensures Solid(StripDot(StripRoot(path)))
  {
    StripKeeps(path);
    StripSolid(path);
    StripSolid(StripRoot(path));
  }

  lemma {:induction false} StripSolid(p: Bytes)
    requires Components(p) != []
    ensures p != []
    ensures p[0] == SLASH ==> Solid(StripRoot(p))
    ensures DotHead(p) ==> Solid(StripDot(p))
  {
    DotOnly();
    if p[0] == SLASH || DotHead(p) {
      SkipHead(p);
      var l := TrimLeft(p[1..]);
      TrimKeeps(p[1..]);
      TrimKeeps(l);
      TrimLeftSolid(p[1..]);
      TrimRightPrefix(l);
      var r := TrimRight(l);
      assert r != [] && l[0] == r[0];
      if |r| == 1 { assert r != [DOT]; }
    }
  }

  lemma {:induction false} TrimLeftSolid(p: Bytes)
    ensures TrimLeft(p) == [] || Solid(TrimLeft(p))
    decreases |p|
  {
    if p != [] && (p[0] == SLASH || DotHead(p)) { TrimLeftSolid(p[1..]); }
  }

  lemma {:induction false} TrimRightPrefix(p: Bytes)
    ensures TrimRight(p) <= p
    decreases |p|
  {
    if p != [] && (p[|p| - 1] == SLASH || DotLast(p)) { TrimRightPrefix(p[..|p| - 1]); }
  }
}
