/** The stack of open manifests in `manifest_parse` (src/bin/rapido-cut.rs) and the
    in-place expansion of `include` lines it amounts to. */
module Includes {
  import opened Strings
  import opened HostFs
  import opened Gather
  import opened Manifest

  /** The manifest an `include` line opens; None for every other line, and for an
      `include` that fails. */
  function IncludeTarget(env: Env, line: Line): (r: Option<Path>)
    ensures r.Some? ==> r.value in env.manifests
  {
    if |line| == 2 && line[0] == "include" then
      match NameSub(env, Some(line[1]))
      case None => None
      case Some(p) =>
        var at := Locate(env.fs, ManifestName(p));
        if at.Some? && at.value in env.manifests then at else None
    else None
  }

  /** Every manifest has a rank above those it includes. */
  type Ranks = map<Path, nat>

  predicate Bounded(env: Env, rank: Ranks, lines: seq<Line>, r: nat) {
    forall i :: 0 <= i < |lines| && IncludeTarget(env, lines[i]).Some? ==>
      var t := IncludeTarget(env, lines[i]).value; t in rank && rank[t] < r
  }

  predicate Acyclic(env: Env, rank: Ranks) {
    forall p :: p in env.manifests ==> p in rank && Bounded(env, rank, env.manifests[p], rank[p])
  }

  lemma BoundedParts(env: Env, rank: Ranks, lines: seq<Line>, r: nat)
    requires Acyclic(env, rank) && Bounded(env, rank, lines, r) && lines != []
    ensures Bounded(env, rank, lines[1..], r)
    ensures var t := IncludeTarget(env, lines[0]);
            t.Some? ==> t.value in rank && rank[t.value] < r && Bounded(env, rank, env.manifests[t.value], rank[t.value])
  {
    hide IncludeTarget;
  }

  /** All lines in the order of their execution. */
  function Expand(env: Env, rank: Ranks, lines: seq<Line>, r: nat): seq<Line>
    requires Acyclic(env, rank) && Bounded(env, rank, lines, r)
    decreases r, |lines|
  {
    if lines == [] then []
    else
      hide Acyclic, Bounded, IncludeTarget;
      BoundedParts(env, rank, lines, r);
      var t := IncludeTarget(env, lines[0]);
      (if t.Some? then Expand(env, rank, env.manifests[t.value], rank[t.value]) else [lines[0]])
      + Expand(env, rank, lines[1..], r)
  }

  /** Rounds of the loop for a list of lines: one per line, one more for the end of
      each included manifest. */
  function Rounds(env: Env, rank: Ranks, lines: seq<Line>, r: nat): nat
    requires Acyclic(env, rank) && Bounded(env, rank, lines, r)
    decreases r, |lines|
  {
    if lines == [] then 0
    else
      hide Acyclic, Bounded, IncludeTarget;
      BoundedParts(env, rank, lines, r);
      var t := IncludeTarget(env, lines[0]);
      1 + (if t.Some? then 1 + Rounds(env, rank, env.manifests[t.value], rank[t.value]) else 0)
      + Rounds(env, rank, lines[1..], r)
  }

  // ---- the stack ----------------------------------------------------------

  /** What is left of every open manifest, with a bound on what it includes. */
  predicate StackOk(env: Env, rank: Ranks, stack: seq<seq<Line>>, bounds: seq<nat>) {
    |stack| == |bounds| && forall i :: 0 <= i < |stack| ==> Bounded(env, rank, stack[i], bounds[i])
  }

  /** The last manifest first. */
  function ExpandStack(env: Env, rank: Ranks, stack: seq<seq<Line>>, bounds: seq<nat>): seq<Line>
    requires Acyclic(env, rank) && StackOk(env, rank, stack, bounds)
    decreases |stack|
  {
    if stack == [] then []
    else
      var n := |stack| - 1;
      Expand(env, rank, stack[n], bounds[n]) + ExpandStack(env, rank, stack[..n], bounds[..n])
  }

  function RoundsLeft(env: Env, rank: Ranks, stack: seq<seq<Line>>, bounds: seq<nat>): nat
    requires Acyclic(env, rank) && StackOk(env, rank, stack, bounds)
    decreases |stack|
  {
    if stack == [] then 0
    else
      var n := |stack| - 1;
      1 + Rounds(env, rank, stack[n], bounds[n]) + RoundsLeft(env, rank, stack[..n], bounds[..n])
  }

  lemma {:induction false} PushFrame(env: Env, rank: Ranks, stack: seq<seq<Line>>, bounds: seq<nat>, lines: seq<Line>, r: nat)
    requires Acyclic(env, rank) && StackOk(env, rank, stack, bounds) && Bounded(env, rank, lines, r)
    ensures StackOk(env, rank, stack + [lines], bounds + [r])
    ensures ExpandStack(env, rank, stack + [lines], bounds + [r]) == Expand(env, rank, lines, r) + ExpandStack(env, rank, stack, bounds)
    ensures RoundsLeft(env, rank, stack + [lines], bounds + [r]) == 1 + Rounds(env, rank, lines, r) + RoundsLeft(env, rank, stack, bounds)
  {
    hide Acyclic, Bounded, Expand, Rounds;
    var s, b := stack + [lines], bounds + [r];
    assert s[..|stack|] == stack && b[..|stack|] == bounds;
  }

  lemma {:induction false} TopFrame(env: Env, rank: Ranks, stack: seq<seq<Line>>, bounds: seq<nat>)
    requires Acyclic(env, rank) && StackOk(env, rank, stack, bounds) && stack != []
    ensures var n := |stack| - 1;
            && StackOk(env, rank, stack[..n], bounds[..n]) && Bounded(env, rank, stack[n], bounds[n])
            && ExpandStack(env, rank, stack, bounds) ==
               Expand(env, rank, stack[n], bounds[n]) + ExpandStack(env, rank, stack[..n], bounds[..n])
            && RoundsLeft(env, rank, stack, bounds) ==
               1 + Rounds(env, rank, stack[n], bounds[n]) + RoundsLeft(env, rank, stack[..n], bounds[..n])
  {
    hide Acyclic, Bounded, Expand, Rounds;
  }

  /** The top frame without its first line. */
  lemma {:induction false} NextLine(env: Env, rank: Ranks, rest: seq<seq<Line>>, bounds: seq<nat>, lines: seq<Line>, r: nat)
    requires Acyclic(env, rank) && StackOk(env, rank, rest, bounds) && Bounded(env, rank, lines, r) && lines != []
    ensures Bounded(env, rank, lines[1..], r)
    ensures StackOk(env, rank, rest + [lines], bounds + [r]) && StackOk(env, rank, rest + [lines[1..]], bounds + [r])
    ensures var t := IncludeTarget(env, lines[0]);
            var old_ := ExpandStack(env, rank, rest + [lines], bounds + [r]);
            var next := ExpandStack(env, rank, rest + [lines[1..]], bounds + [r]);
            && (t.None? ==> old_ == [lines[0]] + next)
            && (t.Some? ==> t.value in rank && Bounded(env, rank, env.manifests[t.value], rank[t.value])
                            && old_ == Expand(env, rank, env.manifests[t.value], rank[t.value]) + next)
    ensures var t := IncludeTarget(env, lines[0]);
            var more := if t.Some? then 1 + Rounds(env, rank, env.manifests[t.value], rank[t.value]) else 0;
            RoundsLeft(env, rank, rest + [lines], bounds + [r]) == 1 + more + RoundsLeft(env, rank, rest + [lines[1..]], bounds + [r])
  {
    hide Acyclic, Bounded, IncludeTarget, StackOk, ExpandStack, RoundsLeft;
    BoundedParts(env, rank, lines, r);
    PushFrame(env, rank, rest, bounds, lines, r);
    PushFrame(env, rank, rest, bounds, lines[1..], r);
    var t := IncludeTarget(env, lines[0]);
    var head := if t.Some? then Expand(env, rank, env.manifests[t.value], rank[t.value]) else [lines[0]];
    Regroup(head, Expand(env, rank, lines[1..], r), ExpandStack(env, rank, rest, bounds));
  }

  lemma Regroup(a: seq<Line>, b: seq<Line>, c: seq<Line>)
    ensures a + b + c == a + (b + c)
  {
  }

  // ---- what is executed ---------------------------------------------------

  lemma {:induction false} ExpandNoInclude(env: Env, rank: Ranks, lines: seq<Line>, r: nat)
    requires Acyclic(env, rank) && Bounded(env, rank, lines, r)
    ensures forall i :: 0 <= i < |Expand(env, rank, lines, r)| ==>
              IncludeTarget(env, Expand(env, rank, lines, r)[i]).None?
    decreases r, |lines|
  {
    hide Acyclic, Bounded, IncludeTarget;
    if lines != [] {
      BoundedParts(env, rank, lines, r);
      var t := IncludeTarget(env, lines[0]);
      if t.Some? { ExpandNoInclude(env, rank, env.manifests[t.value], rank[t.value]); }
      ExpandNoInclude(env, rank, lines[1..], r);
    }
  }

  /** Expanding two lists in a row is expanding one after the other. */
  lemma {:induction false} ExpandConcat(env: Env, rank: Ranks, a: seq<Line>, b: seq<Line>, r: nat)
    requires Acyclic(env, rank) && Bounded(env, rank, a, r) && Bounded(env, rank, b, r)
    ensures Bounded(env, rank, a + b, r)
    ensures Expand(env, rank, a + b, r) == Expand(env, rank, a, r) + Expand(env, rank, b, r)
    decreases |a|
  {
    hide Acyclic, IncludeTarget;
    if a == [] {
      assert a + b == b;
    } else {
      BoundedParts(env, rank, a, r);
      assert (a + b)[1..] == a[1..] + b && (a + b)[0] == a[0];
      ExpandConcat(env, rank, a[1..], b, r);
      var t := IncludeTarget(env, a[0]);
      var head := if t.Some? then Expand(env, rank, env.manifests[t.value], rank[t.value]) else [a[0]];
      Regroup(head, Expand(env, rank, a[1..], r), Expand(env, rank, b, r));
    }
  }

  /** `include` and one name opens the manifest that the name is found at; no other line
      opens one. */
  lemma {:induction false} IncludeKeyword(env: Env, line: Line)
    ensures !(|line| == 2 && line[0] == "include") ==> IncludeTarget(env, line).None?
    ensures |line| == 2 && line[0] == "include" && NameSub(env, Some(line[1])).Some? ==>
              var at := Locate(env.fs, ManifestName(NameSub(env, Some(line[1])).value));
              IncludeTarget(env, line) == if at.Some? && at.value in env.manifests then at else None
  {
    hide Locate, NameSub;
  }
}
