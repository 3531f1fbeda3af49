/** String operations of the Rust standard library that the sources rely on,
    over ASCII character sequences. */
module Strings {

  datatype Option<+T> = None | Some(value: T)

  /** The ASCII part of `char::is_whitespace`. */
  predicate IsSpace(c: char) {
    c == ' ' || c == '\t' || c == '\n' || c == '\r' || c == 11 as char || c == 12 as char
  }

  function TrimStart(s: string): (r: string)
    ensures |r| <= |s| && r == s[|s| - |r|..]
    ensures forall i :: 0 <= i < |s| - |r| ==> IsSpace(s[i])
    ensures r != [] ==> !IsSpace(r[0])
  {
    if s != [] && IsSpace(s[0]) then TrimStart(s[1..]) else s
  }

  function TrimEnd(s: string): (r: string)
    ensures |r| <= |s| && r == s[..|r|]
    ensures forall i :: |r| <= i < |s| ==> IsSpace(s[i])
    ensures r != [] ==> !IsSpace(r[|r| - 1])
  {
    if s != [] && IsSpace(s[|s| - 1]) then TrimEnd(s[..|s| - 1]) else s
  }

  /** Index of the first character satisfying `p`, or the length of the string. */
  function Find(s: string, p: char -> bool): (i: nat)
    ensures i <= |s|
    ensures forall j :: 0 <= j < i ==> !p(s[j])
    ensures i < |s| ==> p(s[i])
  {
    if s == [] || p(s[0]) then 0 else 1 + Find(s[1..], p)
  }

  predicate EqualsSign(c: char) { c == '=' }

  predicate Free(s: string, p: char -> bool) {
    forall i :: 0 <= i < |s| ==> !p(s[i])
  }

  /** `str::split_inclusive`: every block keeps the separator that ends it, and
      there is no empty block at the end. */
  function SplitInclusive(s: string, p: char -> bool): (blocks: seq<string>)
  {
    if s == [] then []
    else
      var i := Find(s, p);
      if i == |s| then [s] else [s[..i + 1]] + SplitInclusive(s[i + 1..], p)
  }

  lemma FindIsFirst(s: string, p: char -> bool, i: nat)
    requires i <= |s|
    requires forall j :: 0 <= j < i ==> !p(s[j])
    requires i < |s| ==> p(s[i])
    ensures Find(s, p) == i
  {
  }

  /** A separator-free prefix and one separator make the first block. */
  lemma {:induction false} SplitFirst(a: string, d: char, rest: string, p: char -> bool)
    requires Free(a, p) && p(d)
    ensures SplitInclusive(a + [d] + rest, p) == [a + [d]] + SplitInclusive(rest, p)
  {
    var s := a + [d] + rest;
    FindIsFirst(s, p, |a|);
    assert s[..|a| + 1] == a + [d];
    assert s[|a| + 1..] == rest;
  }

  lemma {:induction false} SplitLast(a: string, p: char -> bool)
    requires Free(a, p) && a != []
    ensures SplitInclusive(a, p) == [a]
  {
    FindIsFirst(a, p, |a|);
  }

  /** The blocks left after the first are the blocks of the text left after it. */
  lemma {:induction false} SplitTail(s: string, p: char -> bool)
    requires s != []
    ensures SplitInclusive(s, p) != []
    ensures var b := SplitInclusive(s, p)[0];
            && 0 < |b| <= |s|
            && b == s[..|b|]
            && SplitInclusive(s, p)[1..] == SplitInclusive(s[|b|..], p)
            && Free(b[..|b| - 1], p)
            && (p(b[|b| - 1]) || s == b)
  {
    var i := Find(s, p);
    if i < |s| {
      assert s[..i + 1][..i] == s[..i];
    } else {
      assert s[|s|..] == [];
    }
  }
}
