/** The kernel module index of src/kmod-parser/src/lib.rs: names resolve directly,
    through an alias, or once more with dashes replaced. */
module KmodIndex {
  import opened Strings
  import opened Newc

  datatype Kmod = Kmod(builtin: bool, relPath: Bytes, hard: seq<Bytes>,
                       softPre: seq<Bytes>, softPost: seq<Bytes>, weak: seq<Bytes>)

  datatype Index = Index(modules: map<Bytes, Kmod>, aliases: map<Bytes, Bytes>)

  const DASH: Byte := 45
  const UNDERSCORE: Byte := 95

  function Normalize(name: Bytes): (r: Bytes)
    ensures |r| == |name| && DASH !in r
    ensures forall i :: 0 <= i < |name| ==> r[i] == if name[i] == DASH then UNDERSCORE else name[i]
  {
    if name == [] then []
    else [if name[0] == DASH then UNDERSCORE else name[0]] + Normalize(name[1..])
  }

  /** A module under exactly this name or alias. */
  function Direct(index: Index, name: Bytes): Option<Kmod> {
    if name in index.modules then Some(index.modules[name])
    else if name in index.aliases && index.aliases[name] in index.modules then
      Some(index.modules[index.aliases[name]])
    else None
  }

  /** `find`: the fallback recursion replaces all dashes, so it happens once. */
  function FindModule(index: Index, name: Bytes): Option<Kmod>
    decreases DASH in name
  {
    if Direct(index, name).Some? then Direct(index, name)
    else
      var norm := Normalize(name);
      if norm != name then
        NormalizeFixes(name);
        FindModule(index, norm)
      else None
  }

  lemma {:induction false} NormalizeFixes(name: Bytes)
    ensures Normalize(name) == name <==> DASH !in name
  {
    if DASH !in name { assert Normalize(name) == name; }
  }

  /** What a name resolves to, without the recursion: the name itself before its
      dash-free form, and a module name before an alias. */
  lemma {:induction false} FindModuleIs(index: Index, name: Bytes)
    ensures FindModule(index, name) ==
            if Direct(index, name).Some? then Direct(index, name) else Direct(index, Normalize(name))
  {
    NormalizeFixes(name);
    NormalizeFixes(Normalize(name));
  }

  /** Every spelling of a loaded module's name, with dashes or underscores, finds
      that module, unless the spelling is an alias of its own. */
  lemma {:induction false} SpellingIrrelevant(index: Index, key: Bytes, name: Bytes)
    requires key in index.modules && Normalize(name) == key && name !in index.aliases
    requires forall k :: k in index.modules ==> DASH !in k
    ensures FindModule(index, name) == Some(index.modules[key])
  {
    FindModuleIs(index, name);
    NormalizeFixes(name);
  }

  /** An alias finds the module it stands for, unless a module has that name itself. */
  lemma {:induction false} AliasFinds(index: Index, alias: Bytes)
    requires alias in index.aliases && index.aliases[alias] in index.modules
    ensures FindModule(index, alias) ==
            Some(index.modules[if alias in index.modules then alias else index.aliases[alias]])
  {
    FindModuleIs(index, alias);
  }
}
