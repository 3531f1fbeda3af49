/** Building the module index from the files of depmod: the loaders of `KmodContext`
    in src/kmod-parser/src/lib.rs. */
module KmodLoad {
  import opened Strings
  import opened Newc
  import opened ArchiveName
  import opened KmodIndex

  const COLON: Byte := 58

  predicate IsBlankByte(b: Byte) { b == 32 || 9 <= b <= 13 }

  function TrimBytes(s: Bytes): Bytes
    decreases |s|
  {
    if s == [] then []
    else if IsBlankByte(s[0]) then TrimBytes(s[1..])
    else if IsBlankByte(s[|s| - 1]) then TrimBytes(s[..|s| - 1])
    else s
  }

  function TokensFrom(s: Bytes, acc: Bytes): seq<Bytes> {
    var own: seq<Bytes> := if acc == [] then [] else [acc];
    if s == [] then own
    else if IsBlankByte(s[0]) then own + TokensFrom(s[1..], [])
    else TokensFrom(s[1..], acc + [s[0]])
  }

  /** `split_whitespace` */
  function Tokens(s: Bytes): seq<Bytes> { TokensFrom(s, []) }

  // ---- module names -------------------------------------------------------

  /** The last dot behind the first byte, or the length. */
  function LastDot(s: Bytes): (i: nat)
    ensures i <= |s| && (i < |s| ==> s[i] == DOT && forall j :: i < j < |s| ==> s[j] != DOT)
    ensures i == |s| ==> forall j :: 0 < j < |s| ==> s[j] != DOT
    decreases |s|
  {
    if |s| <= 1 then |s|
    else if s[|s| - 1] == DOT then |s| - 1
    else
      var i := LastDot(s[..|s| - 1]);
      if i == |s| - 1 then |s| else i
  }

  /** `Path::file_stem` of a file name. */
  function FileStem(name: Bytes): Bytes { name[..LastDot(name)] }

  function KoSuffix(): Bytes { [DOT, 107, 111] }

  function StripKo(s: Bytes): Bytes {
    if |s| >= 3 && s[|s| - 3..] == KoSuffix() then s[..|s| - 3] else s
  }

  /** `extract_module_name` */
  function ExtractName(path: Bytes): (r: Bytes)
    ensures DASH !in r
  {
    var comps := Components(path);
    var stem := if comps == [] || comps[|comps| - 1] == [DOT, DOT] then path else FileStem(comps[|comps| - 1]);
    Normalize(StripKo(stem))
  }

  lemma {:induction false} LastDotIs(a: Bytes, e: Bytes)
    requires a != [] && DOT !in e
    ensures LastDot(a + [DOT] + e) == |a|
    decreases |e|
  {
    var s := a + [DOT] + e;
    if e != [] {
      assert s[..|s| - 1] == a + [DOT] + e[..|e| - 1];
      LastDotIs(a, e[..|e| - 1]);
    }
  }

  /** A module file `name.ko`, plain or compressed (`name.ko.xz` and the like),
      belongs to the module of that name, dashes replaced. */
  lemma {:induction false} ExtractsName(path: Bytes, name: Bytes, ext: Bytes)
    requires name != [] && StripKo(name) == name && DOT !in ext
    requires Components(path) != []
    requires var file := Components(path)[|Components(path)| - 1];
             file != [DOT, DOT] && (file == name + KoSuffix() || file == name + KoSuffix() + [DOT] + ext)
    ensures ExtractName(path) == Normalize(name)
  {
    hide Components;
    var file := Components(path)[|Components(path)| - 1];
    if file == name + KoSuffix() {
      assert file == name + [DOT] + [107, 111];
      LastDotIs(name, [107, 111]);
      assert FileStem(file) == name;
    } else {
      var a := name + KoSuffix();
      LastDotIs(a, ext);
      assert FileStem(file) == a;
      assert a[|a| - 3..] == KoSuffix() && a[..|a| - 3] == name;
    }
  }

  // ---- one file after the other -------------------------------------------

  type Modules = map<Bytes, Kmod>

  function Colon(s: Bytes): (i: nat)
    ensures i <= |s|
  {
    if s == [] || s[0] == COLON then 0 else 1 + Colon(s[1..])
  }

  /** A line of modules.dep: `path: dependency ...` */
  function DepLine(line: Bytes): Option<(Bytes, Kmod)> {
    var i := Colon(line);
    if i == |line| then None
    else
      var path := TrimBytes(line[..i]);
      Some((ExtractName(path), Kmod(false, path, Tokens(line[i + 1..]), [], [], [])))
  }

  predicate IsWord(w: Bytes) { w != [] && forall i :: 0 <= i < |w| ==> !IsBlankByte(w[i]) }

  /** Words behind one blank each. */
  function Spaced(words: seq<Bytes>): Bytes {
    if words == [] then [] else [32] + words[0] + Spaced(words[1..])
  }

  lemma {:induction false} WordThen(w: Bytes, acc: Bytes, rest: Bytes)
    requires forall i :: 0 <= i < |w| ==> !IsBlankByte(w[i])
    requires rest == [] || IsBlankByte(rest[0])
    ensures TokensFrom(w + rest, acc) == (if acc + w == [] then [] else [acc + w]) + TokensFrom(rest, [])
    decreases |w|
  {
    if w == [] {
      assert w + rest == rest && acc + w == acc;
    } else {
      assert (w + rest)[1..] == w[1..] + rest;
      WordThen(w[1..], acc + [w[0]], rest);
      assert acc + [w[0]] + w[1..] == acc + w;
    }
  }

  /** Splitting at white space gives back the words. */
  lemma {:induction false} TokensOf(words: seq<Bytes>)
    requires forall i :: 0 <= i < |words| ==> IsWord(words[i])
    ensures Tokens(Spaced(words)) == words
    decreases |words|
  {
    if words != [] {
      var w, rest := words[0], Spaced(words[1..]);
      assert IsWord(w);
      assert Spaced(words)[1..] == w + rest;
      WordThen(w, [], rest);
      assert [] + w == w;
      TokensOf(words[1..]);
    }
  }

  lemma {:induction false} ColonAt(path: Bytes, rest: Bytes)
    requires COLON !in path
    ensures Colon(path + [COLON] + rest) == |path|
    decreases |path|
  {
    if path != [] {
      assert (path + [COLON] + rest)[1..] == path[1..] + [COLON] + rest;
      ColonAt(path[1..], rest);
    }
  }

  /** A line of modules.dep names a loadable module by its file, with the paths behind the
      colon as its dependencies. */
  lemma {:induction false} DepLineExact(path: Bytes, deps: seq<Bytes>)
    requires IsWord(path) && COLON !in path && forall i :: 0 <= i < |deps| ==> IsWord(deps[i])
    ensures DepLine(path + [COLON] + Spaced(deps)) == Some((ExtractName(path), Kmod(false, path, deps, [], [], [])))
  {
    hide ExtractName, Tokens;
    var line := path + [COLON] + Spaced(deps);
    ColonAt(path, Spaced(deps));
    assert line[..|path|] == path && line[|path| + 1..] == Spaced(deps);
    TokensOf(deps);
  }

  /** A second entry for a module is an error. */
  function LoadDep(lines: seq<Bytes>, m: Modules): Option<Modules>
    decreases |lines|
  {
    if lines == [] then Some(m)
    else
      match DepLine(lines[0])
      case None => LoadDep(lines[1..], m)
      case Some((key, mod)) => if key in m then None else LoadDep(lines[1..], m[key := mod])
  }

  const BUILTIN_MODULE := Kmod(true, [], [], [], [], [])

  /** A line of modules.builtin never replaces an entry. */
  function AddBuiltin(line: Bytes, m: Modules): Modules {
    var path := TrimBytes(line);
    if path == [] || ExtractName(path) in m then m else m[ExtractName(path) := BUILTIN_MODULE]
  }

  function AddSoftParts(parts: seq<Bytes>, pre: bool, mod: Kmod): Kmod
    decreases |parts|
  {
    if parts == [] then mod
    else if parts[0] == Encode("pre:") then AddSoftParts(parts[1..], true, mod)
    else if parts[0] == Encode("post:") then AddSoftParts(parts[1..], false, mod)
    else if pre then AddSoftParts(parts[1..], pre, mod.(softPre := mod.softPre + [parts[0]]))
    else AddSoftParts(parts[1..], pre, mod.(softPost := mod.softPost + [parts[0]]))
  }

  function AddSoft(line: Bytes, m: Modules): Modules {
    var parts := Tokens(line);
    if |parts| < 3 || parts[0] != Encode("softdep") || parts[1] !in m then m
    else m[parts[1] := AddSoftParts(parts[2..], true, m[parts[1]])]
  }

  function AddWeak(line: Bytes, m: Modules): Modules {
    var parts := Tokens(line);
    if |parts| != 3 || parts[0] != Encode("weakdep") || parts[1] !in m then m
    else m[parts[1] := m[parts[1]].(weak := m[parts[1]].weak + [parts[2]])]
  }

  function AddAlias(line: Bytes, a: map<Bytes, Bytes>): map<Bytes, Bytes> {
    var parts := Tokens(line);
    if |parts| < 3 || parts[0] != Encode("alias") then a else a[parts[1] := parts[2]]
  }

  function Fold<M>(lines: seq<Bytes>, add: (Bytes, M) -> M, m: M): M
    decreases |lines|
  {
    if lines == [] then m else Fold(lines[1..], add, add(lines[0], m))
  }

  /** The files of a module directory; None for a missing one. */
  datatype Files = Files(dep: Option<seq<Bytes>>, builtin: Option<seq<Bytes>>, soft: Option<seq<Bytes>>,
                         weak: Option<seq<Bytes>>, alias: Option<seq<Bytes>>)

  function LinesOf(f: Option<seq<Bytes>>): seq<Bytes> { if f.None? then [] else f.value }

  /** `KmodContext::new`: only modules.builtin has to exist. */
  function BuildIndex(f: Files): Option<Index> {
    match LoadDep(LinesOf(f.dep), map[])
    case None => None
    case Some(m) =>
      if f.builtin.None? then None
      else
        var m1 := Fold(f.builtin.value, AddBuiltin, m);
        var m2 := Fold(LinesOf(f.soft), AddSoft, m1);
        var m3 := Fold(LinesOf(f.weak), AddWeak, m2);
        Some(Index(m3, Fold(LinesOf(f.alias), AddAlias, map[])))
  }

  class KmodContext {
    var modulesHash: Modules
    var aliasMap: map<Bytes, Bytes>

    constructor ()
      ensures modulesHash == map[] && aliasMap == map[]
    {
      modulesHash, aliasMap := map[], map[];
    }

    method LoadHardDependencies(lines: seq<Bytes>) returns (ok: bool)
      modifies this`modulesHash
      ensures ok == LoadDep(lines, old(modulesHash)).Some?
      ensures ok ==> modulesHash == LoadDep(lines, old(modulesHash)).value
    {
      hide DepLine;
      var i := 0;
      assert lines[0..] == lines;
      while i < |lines|
        invariant i <= |lines|
        invariant LoadDep(lines[i..], modulesHash) == LoadDep(lines, old(modulesHash))
      {
        assert lines[i..][1..] == lines[i + 1..];
        var got := DepLine(lines[i]);
        i := i + 1;
        if got.None? {
          continue;
        }
        var duplicate := got.value.0 in modulesHash;
        modulesHash := modulesHash[got.value.0 := got.value.1];
        if duplicate {
          return false;
        }
      }
      return true;
    }

    method LoadBuiltinModules(lines: seq<Bytes>)
      modifies this`modulesHash
      ensures modulesHash == Fold(lines, AddBuiltin, old(modulesHash))
    {
      hide AddBuiltin;
      var i := 0;
      assert lines[0..] == lines;
      while i < |lines|
        invariant i <= |lines|
        invariant Fold(lines[i..], AddBuiltin, modulesHash) == Fold(lines, AddBuiltin, old(modulesHash))
      {
        assert lines[i..][1..] == lines[i + 1..];
        modulesHash := AddBuiltin(lines[i], modulesHash);
        i := i + 1;
      }
    }

    method LoadSoftDependencies(lines: seq<Bytes>)
      modifies this`modulesHash
      ensures modulesHash == Fold(lines, AddSoft, old(modulesHash))
    {
      hide AddSoft;
      var i := 0;
      assert lines[0..] == lines;
      while i < |lines|
        invariant i <= |lines|
        invariant Fold(lines[i..], AddSoft, modulesHash) == Fold(lines, AddSoft, old(modulesHash))
      {
        assert lines[i..][1..] == lines[i + 1..];
        modulesHash := AddSoft(lines[i], modulesHash);
        i := i + 1;
      }
    }

    method LoadWeakDependencies(lines: seq<Bytes>)
      modifies this`modulesHash
      ensures modulesHash == Fold(lines, AddWeak, old(modulesHash))
    {
      hide AddWeak;
      var i := 0;
      assert lines[0..] == lines;
      while i < |lines|
        invariant i <= |lines|
        invariant Fold(lines[i..], AddWeak, modulesHash) == Fold(lines, AddWeak, old(modulesHash))
      {
        assert lines[i..][1..] == lines[i + 1..];
        modulesHash := AddWeak(lines[i], modulesHash);
        i := i + 1;
      }
    }

    method LoadAliases(lines: seq<Bytes>)
      modifies this`aliasMap
      ensures aliasMap == Fold(lines, AddAlias, old(aliasMap))
    {
      hide AddAlias;
      var i := 0;
      assert lines[0..] == lines;
      while i < |lines|
        invariant i <= |lines|
        invariant Fold(lines[i..], AddAlias, aliasMap) == Fold(lines, AddAlias, old(aliasMap))
      {
        assert lines[i..][1..] == lines[i + 1..];
        aliasMap := AddAlias(lines[i], aliasMap);
        i := i + 1;
      }
    }
  }

  method NewContext(f: Files) returns (r: Option<Index>)
    ensures r == BuildIndex(f)
  {
    hide LoadDep, AddBuiltin, AddSoft, AddWeak, AddAlias, Fold;
    var ctx := new KmodContext();
    var ok := ctx.LoadHardDependencies(LinesOf(f.dep));
    if !ok || f.builtin.None? {
      return None;
    }
    ctx.LoadBuiltinModules(f.builtin.value);
    ctx.LoadSoftDependencies(LinesOf(f.soft));
    ctx.LoadWeakDependencies(LinesOf(f.weak));
    ctx.LoadAliases(LinesOf(f.alias));
    return Some(Index(ctx.modulesHash, ctx.aliasMap));
  }

  // ---- what the index holds -----------------------------------------------

  predicate Normal(m: Modules) { forall k :: k in m ==> DASH !in k }

  /** What modules.dep says about a module; later files leave it alone. */
  predicate SameModule(a: Kmod, b: Kmod) {
    a.builtin == b.builtin && a.relPath == b.relPath && a.hard == b.hard
  }

  ghost predicate Keeps(a: Modules, b: Modules) {
    && (forall k :: k in a ==> k in b && SameModule(a[k], b[k]))
    && (Normal(a) ==> Normal(b))
  }

  lemma KeepsTrans(a: Modules, b: Modules, c: Modules)
    requires Keeps(a, b) && Keeps(b, c)
    ensures Keeps(a, c)
  {
    hide Normal;
    forall k | k in a ensures k in c && SameModule(a[k], c[k]) {
      assert SameModule(a[k], b[k]) && SameModule(b[k], c[k]);
    }
  }

  lemma {:induction false} AddSoftPartsKeeps(parts: seq<Bytes>, pre: bool, mod: Kmod)
    ensures SameModule(mod, AddSoftParts(parts, pre, mod))
    decreases |parts|
  {
    hide Encode;
    if parts != [] {
      if parts[0] == Encode("pre:") { AddSoftPartsKeeps(parts[1..], true, mod); }
      else if parts[0] == Encode("post:") { AddSoftPartsKeeps(parts[1..], false, mod); }
      else if pre { AddSoftPartsKeeps(parts[1..], pre, mod.(softPre := mod.softPre + [parts[0]])); }
      else { AddSoftPartsKeeps(parts[1..], pre, mod.(softPost := mod.softPost + [parts[0]])); }
    }
  }

  lemma {:induction false} AddKeeps(line: Bytes, m: Modules)
    ensures Keeps(m, AddBuiltin(line, m)) && Keeps(m, AddSoft(line, m)) && Keeps(m, AddWeak(line, m))
  {
    hide *;
    assert Keeps(m, AddBuiltin(line, m)) by { AddBuiltinKeeps(line, m); }
    assert Keeps(m, AddSoft(line, m)) by { AddSoftKeeps(line, m); }
    assert Keeps(m, AddWeak(line, m)) by { AddWeakKeeps(line, m); }
  }

  lemma {:induction false} AddBuiltinKeeps(line: Bytes, m: Modules)
    ensures Keeps(m, AddBuiltin(line, m))
  {
    hide TrimBytes, ExtractName;
  }

  lemma {:induction false} AddSoftKeeps(line: Bytes, m: Modules)
    ensures Keeps(m, AddSoft(line, m))
  {
    hide Encode, Tokens, AddSoftParts;
    var parts := Tokens(line);
    if |parts| >= 3 && parts[1] in m { AddSoftPartsKeeps(parts[2..], true, m[parts[1]]); }
  }

  lemma {:induction false} AddWeakKeeps(line: Bytes, m: Modules)
    ensures Keeps(m, AddWeak(line, m))
  {
    hide Encode, Tokens;
  }

  lemma {:induction false} BuiltinKeeps(lines: seq<Bytes>, m: Modules)
    ensures Keeps(m, Fold(lines, AddBuiltin, m))
    decreases |lines|
  {
    hide AddBuiltin;
    if lines != [] {
      AddKeeps(lines[0], m);
      BuiltinKeeps(lines[1..], AddBuiltin(lines[0], m));
      KeepsTrans(m, AddBuiltin(lines[0], m), Fold(lines, AddBuiltin, m));
    }
  }

  lemma {:induction false} SoftKeeps(lines: seq<Bytes>, m: Modules)
    ensures Keeps(m, Fold(lines, AddSoft, m))
    decreases |lines|
  {
    hide AddSoft;
    if lines != [] {
      AddKeeps(lines[0], m);
      SoftKeeps(lines[1..], AddSoft(lines[0], m));
      KeepsTrans(m, AddSoft(lines[0], m), Fold(lines, AddSoft, m));
    }
  }

  lemma {:induction false} WeakKeeps(lines: seq<Bytes>, m: Modules)
    ensures Keeps(m, Fold(lines, AddWeak, m))
    decreases |lines|
  {
    hide AddWeak;
    if lines != [] {
      AddKeeps(lines[0], m);
      WeakKeeps(lines[1..], AddWeak(lines[0], m));
      KeepsTrans(m, AddWeak(lines[0], m), Fold(lines, AddWeak, m));
    }
  }

  // ---- what each further file adds ----------------------------------------

  predicate NamesBuiltin(line: Bytes, key: Bytes) {
    TrimBytes(line) != [] && ExtractName(TrimBytes(line)) == key
  }

  /** modules.builtin adds exactly the modules it names, and replaces none. */
  lemma {:induction false} BuiltinExact(lines: seq<Bytes>, m: Modules, key: Bytes)
    ensures var r := Fold(lines, AddBuiltin, m);
            && (key in r <==> key in m || exists i :: 0 <= i < |lines| && NamesBuiltin(lines[i], key))
            && (key in r ==> r[key] == if key in m then m[key] else BUILTIN_MODULE)
    decreases |lines|
  {
    hide TrimBytes, ExtractName;
    if lines != [] {
      var next := AddBuiltin(lines[0], m);
      BuiltinExact(lines[1..], next, key);
      if i :| 0 <= i < |lines| && NamesBuiltin(lines[i], key) {
        if i > 0 { assert NamesBuiltin(lines[1..][i - 1], key); }
      }
      if j :| 0 <= j < |lines[1..]| && NamesBuiltin(lines[1..][j], key) { assert NamesBuiltin(lines[j + 1], key); }
    }
  }

  predicate IsMarker(part: Bytes) { part == Encode("pre:") || part == Encode("post:") }

  /** Does the last marker before `j`, or the start, say `pre:`? */
  predicate PreAt(parts: seq<Bytes>, pre: bool, j: nat)
    requires j <= |parts|
  {
    if j == 0 then pre
    else if IsMarker(parts[j - 1]) then parts[j - 1] == Encode("pre:")
    else PreAt(parts, pre, j - 1)
  }

  lemma {:induction false} PreAtTail(parts: seq<Bytes>, pre: bool, j: nat)
    requires 0 < j <= |parts|
    ensures PreAt(parts, pre, j) == PreAt(parts[1..], PreAt(parts, pre, 1), j - 1)
    decreases j
  {
    hide Encode;
    if j > 1 { PreAtTail(parts, pre, j - 1); }
  }

  /** The names of a soft dependency line, markers left out, from `j` on, that are to
      be loaded before (or behind) the module. */
  function Entries(parts: seq<Bytes>, pre: bool, want: bool, j: nat): seq<Bytes>
    requires j <= |parts|
    decreases |parts| - j
  {
    if j == |parts| then []
    else (if !IsMarker(parts[j]) && PreAt(parts, pre, j) == want then [parts[j]] else []) + Entries(parts, pre, want, j + 1)
  }

  lemma {:induction false} EntriesTail(parts: seq<Bytes>, pre: bool, want: bool, j: nat)
    requires 0 < j <= |parts|
    ensures Entries(parts, pre, want, j) == Entries(parts[1..], PreAt(parts, pre, 1), want, j - 1)
    decreases |parts| - j
  {
    hide PreAt, IsMarker;
    if j < |parts| {
      PreAtTail(parts, pre, j);
      EntriesTail(parts, pre, want, j + 1);
    }
  }

  lemma MarkersDiffer()
    ensures Encode("pre:") != Encode("post:")
  {
    assert Encode("pre:")[1] != Encode("post:")[1];
  }

  function WithEntries(mod: Kmod, parts: seq<Bytes>, pre: bool): Kmod {
    mod.(softPre := mod.softPre + Entries(parts, pre, true, 0), softPost := mod.softPost + Entries(parts, pre, false, 0))
  }

  lemma {:induction false} EntriesFirst(parts: seq<Bytes>, pre: bool, want: bool)
    requires parts != []
    ensures var next := if IsMarker(parts[0]) then parts[0] == Encode("pre:") else pre;
            Entries(parts, pre, want, 0) ==
            (if !IsMarker(parts[0]) && pre == want then [parts[0]] else []) + Entries(parts[1..], next, want, 0)
  {
    hide Encode;
    EntriesTail(parts, pre, want, 1);
    assert PreAt(parts, pre, 0) == pre;
  }

  lemma {:induction false} WithFirst(mod: Kmod, parts: seq<Bytes>, pre: bool)
    requires parts != []
    ensures var next := if IsMarker(parts[0]) then parts[0] == Encode("pre:") else pre;
            var more := if IsMarker(parts[0]) then mod
                        else if pre then mod.(softPre := mod.softPre + [parts[0]])
                        else mod.(softPost := mod.softPost + [parts[0]]);
            WithEntries(mod, parts, pre) == WithEntries(more, parts[1..], next)
  {
    hide Encode, Entries, IsMarker;
    EntriesFirst(parts, pre, true);
    EntriesFirst(parts, pre, false);
  }

  /** A line appends every name to the list of the last marker before it. */
  lemma {:induction false} SoftLineAdds(parts: seq<Bytes>, pre: bool, mod: Kmod)
    ensures AddSoftParts(parts, pre, mod) == WithEntries(mod, parts, pre)
    decreases |parts|
  {
    hide Encode, WithEntries;
    MarkersDiffer();
    if parts == [] {
      WithNone(mod, parts, pre);
    } else {
      WithFirst(mod, parts, pre);
      if IsMarker(parts[0]) { SoftLineAdds(parts[1..], parts[0] == Encode("pre:"), mod); }
      else if pre { SoftLineAdds(parts[1..], pre, mod.(softPre := mod.softPre + [parts[0]])); }
      else { SoftLineAdds(parts[1..], pre, mod.(softPost := mod.softPost + [parts[0]])); }
    }
  }

  lemma WithNone(mod: Kmod, parts: seq<Bytes>, pre: bool)
    requires parts == []
    ensures WithEntries(mod, parts, pre) == mod
  {
  }

  predicate SoftFor(line: Bytes, key: Bytes) {
    var parts := Tokens(line);
    |parts| >= 3 && parts[0] == Encode("softdep") && parts[1] == key
  }

  /** What a whole modules.softdep lists for a module. */
  function SoftOf(lines: seq<Bytes>, key: Bytes, want: bool): seq<Bytes> {
    if lines == [] then []
    else (if SoftFor(lines[0], key) then Entries(Tokens(lines[0])[2..], true, want, 0) else []) + SoftOf(lines[1..], key, want)
  }

  /** modules.softdep appends, for every known module, what its lines list, and changes
      nothing else. */
  lemma {:induction false} SoftExact(lines: seq<Bytes>, m: Modules, key: Bytes)
    ensures var r := Fold(lines, AddSoft, m);
            && (key in r <==> key in m)
            && (key in m ==> r[key] == m[key].(softPre := m[key].softPre + SoftOf(lines, key, true),
                                              softPost := m[key].softPost + SoftOf(lines, key, false)))
    decreases |lines|
  {
    hide Encode, Tokens, Entries, AddSoftParts;
    if lines != [] {
      var next := AddSoft(lines[0], m);
      SoftExact(lines[1..], next, key);
      if SoftFor(lines[0], key) && key in m { SoftLineAdds(Tokens(lines[0])[2..], true, m[key]); }
    }
  }

  function WeakOf(lines: seq<Bytes>, key: Bytes): seq<Bytes> {
    if lines == [] then []
    else
      var parts := Tokens(lines[0]);
      (if |parts| == 3 && parts[0] == Encode("weakdep") && parts[1] == key then [parts[2]] else []) + WeakOf(lines[1..], key)
  }

  /** modules.weakdep appends, for every known module, the names of its lines. */
  lemma {:induction false} WeakExact(lines: seq<Bytes>, m: Modules, key: Bytes)
    ensures var r := Fold(lines, AddWeak, m);
            && (key in r <==> key in m)
            && (key in m ==> r[key] == m[key].(weak := m[key].weak + WeakOf(lines, key)))
    decreases |lines|
  {
    hide Encode, Tokens;
    if lines != [] { WeakExact(lines[1..], AddWeak(lines[0], m), key); }
  }

  function AliasIn(line: Bytes, alias: Bytes): Option<Bytes> {
    var parts := Tokens(line);
    if |parts| >= 3 && parts[0] == Encode("alias") && parts[1] == alias then Some(parts[2]) else None
  }

  /** Found from the end of the file. */
  function LastAlias(lines: seq<Bytes>, alias: Bytes): Option<Bytes> {
    if lines == [] then None
    else
      var n := |lines| - 1;
      if AliasIn(lines[n], alias).Some? then AliasIn(lines[n], alias) else LastAlias(lines[..n], alias)
  }

  /** The last line of modules.alias for a name decides. */
  lemma {:induction false} AliasExact(lines: seq<Bytes>, a: map<Bytes, Bytes>, alias: Bytes)
    ensures var r := Fold(lines, AddAlias, a);
            var last := LastAlias(lines, alias);
            && (alias in r <==> alias in a || last.Some?)
            && (alias in r ==> r[alias] == if last.Some? then last.value else a[alias])
    decreases |lines|
  {
    hide Encode, Tokens, Fold;
    FoldEnd(lines, a);
    if lines != [] { AliasExact(lines[..|lines| - 1], a, alias); }
  }

  lemma {:induction false} FoldEnd(lines: seq<Bytes>, a: map<Bytes, Bytes>)
    ensures Fold(lines, AddAlias, a) ==
            if lines == [] then a else AddAlias(lines[|lines| - 1], Fold(lines[..|lines| - 1], AddAlias, a))
    decreases |lines|
  {
    hide AddAlias;
    if |lines| > 1 {
      var n := |lines| - 1;
      assert lines[1..][..n - 1] == lines[..n][1..];
      FoldEnd(lines[1..], AddAlias(lines[0], a));
    }
  }

  /** Every line of modules.dep is in the index it produces. */
  lemma {:induction false} DepHasLines(lines: seq<Bytes>, m: Modules)
    requires LoadDep(lines, m).Some? && Normal(m)
    ensures var r := LoadDep(lines, m).value;
            && Normal(r)
            && (forall k :: k in m ==> k in r && r[k] == m[k])
            && (forall i :: 0 <= i < |lines| && DepLine(lines[i]).Some? ==>
                  var (key, mod) := DepLine(lines[i]).value; key in r && r[key] == mod)
    decreases |lines|
  {
    hide TrimBytes, Tokens, ExtractName, Colon;
    if lines != [] {
      var rest := lines[1..];
      var d := DepLine(lines[0]);
      DepHasLines(rest, if d.None? then m else m[d.value.0 := d.value.1]);
      var r := LoadDep(lines, m).value;
      forall i | 0 <= i < |lines| && DepLine(lines[i]).Some?
        ensures var (key, mod) := DepLine(lines[i]).value; key in r && r[key] == mod
      {
        if i > 0 { assert lines[i] == rest[i - 1]; }
      }
    }
  }

  /** Every module of modules.dep is found under every spelling of its name that is
      not an alias, as a loadable module with the path and the dependencies of its
      line, whatever the other files say. */
  lemma {:induction false} IndexFindsModules(f: Files, i: nat, name: Bytes)
    requires BuildIndex(f).Some? && f.dep.Some? && i < |f.dep.value| && DepLine(f.dep.value[i]).Some?
    requires var (key, _) := DepLine(f.dep.value[i]).value; Normalize(name) == key
    requires name !in BuildIndex(f).value.aliases
    ensures var (_, mod) := DepLine(f.dep.value[i]).value;
            var found := FindModule(BuildIndex(f).value, name);
            found.Some? && !found.value.builtin && found.value.relPath == mod.relPath && found.value.hard == mod.hard
  {
    hide DepLine, LoadDep, AddBuiltin, AddSoft, AddWeak, AddAlias, Fold, FindModule;
    var (key, mod) := DepLine(f.dep.value[i]).value;
    var m := LoadDep(f.dep.value, map[]).value;
    DepHasLines(f.dep.value, map[]);
    var m1 := Fold(f.builtin.value, AddBuiltin, m);
    var m2 := Fold(LinesOf(f.soft), AddSoft, m1);
    var m3 := Fold(LinesOf(f.weak), AddWeak, m2);
    BuiltinKeeps(f.builtin.value, m);
    SoftKeeps(LinesOf(f.soft), m1);
    WeakKeeps(LinesOf(f.weak), m2);
    KeepsTrans(m, m1, m2);
    KeepsTrans(m, m2, m3);
    DepIsLoadable(f.dep.value[i]);
    SpellingIrrelevant(BuildIndex(f).value, key, name);
  }

  lemma DepIsLoadable(line: Bytes)
    requires DepLine(line).Some?
    ensures !DepLine(line).value.1.builtin
  {
    hide ExtractName, TrimBytes, Tokens;
  }

  /** Two lines of modules.dep for the same module are an error. */
  lemma {:induction false} DuplicateFails(lines: seq<Bytes>, m: Modules, i: nat, j: nat)
    requires i < j < |lines| && DepLine(lines[i]).Some? && DepLine(lines[j]).Some?
    requires DepLine(lines[i]).value.0 == DepLine(lines[j]).value.0
    ensures LoadDep(lines, m) == None
    decreases |lines|
  {
    hide DepLine;
    var first := DepLine(lines[0]);
    if i > 0 {
      DuplicateFails(lines[1..], if first.Some? then m[first.value.0 := first.value.1] else m, i - 1, j - 1);
    } else if first.value.0 !in m {
      KnownFails(lines[1..], m[first.value.0 := first.value.1], j - 1);
    }
  }

  lemma {:induction false} KnownFails(lines: seq<Bytes>, m: Modules, j: nat)
    requires j < |lines| && DepLine(lines[j]).Some? && DepLine(lines[j]).value.0 in m
    ensures LoadDep(lines, m) == None
    decreases |lines|
  {
    hide DepLine;
    if j > 0 {
      var first := DepLine(lines[0]);
      KnownFails(lines[1..], if first.Some? then m[first.value.0 := first.value.1] else m, j - 1);
    }
  }

  /** The index can be built if and only if modules.builtin exists and modules.dep, if it
      exists, names no module twice. */
  lemma {:induction false} BuildExact(f: Files)
    ensures BuildIndex(f).Some? <==>
            f.builtin.Some? && (f.dep.Some? ==> Distinct(f.dep.value))
  {
    hide Fold, DepLine;
    if f.dep.Some? {
      if !Distinct(f.dep.value) {
        var i: nat, j: nat :| i < j < |f.dep.value| && SameKey(f.dep.value[i], f.dep.value[j]);
        DuplicateFails(f.dep.value, map[], i, j);
      } else {
        DistinctLoads(f.dep.value, map[]);
      }
    }
  }

  predicate SameKey(a: Bytes, b: Bytes) {
    DepLine(a).Some? && DepLine(b).Some? && DepLine(a).value.0 == DepLine(b).value.0
  }

  ghost predicate Distinct(lines: seq<Bytes>) { forall i: nat, j: nat :: i < j < |lines| ==> !SameKey(lines[i], lines[j]) }

  lemma {:induction false} DistinctLoads(lines: seq<Bytes>, m: Modules)
    requires Distinct(lines) && forall i :: 0 <= i < |lines| && DepLine(lines[i]).Some? ==> DepLine(lines[i]).value.0 !in m
    ensures LoadDep(lines, m).Some?
    decreases |lines|
  {
    hide DepLine;
    if lines != [] {
      var first, rest := DepLine(lines[0]), lines[1..];
      assert Distinct(rest) by {
        forall i: nat, j: nat | i < j < |rest| ensures !SameKey(rest[i], rest[j]) {
          assert rest[i] == lines[i + 1] && rest[j] == lines[j + 1];
        }
      }
      var next := if first.Some? then m[first.value.0 := first.value.1] else m;
      forall i | 0 <= i < |rest| && DepLine(rest[i]).Some? ensures DepLine(rest[i]).value.0 !in next {
        assert rest[i] == lines[i + 1];
        assert !SameKey(lines[0], lines[i + 1]);
      }
      DistinctLoads(rest, next);
    }
  }
}
