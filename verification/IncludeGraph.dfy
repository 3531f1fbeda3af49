/** Which manifests include each other (src/bin/rapido-cut.rs): the stack of open
    manifests is worked off unless one of them leads back to itself. */
module IncludeGraph {
  import opened Strings
  import opened HostFs
  import opened Manifest
  import opened Includes

  /** A line of manifest `p` opens manifest `q`. */
  ghost predicate Opens(env: Env, p: Path, q: Path) {
    p in env.manifests && exists i :: 0 <= i < |env.manifests[p]| && IncludeTarget(env, env.manifests[p][i]) == Some(q)
  }

  /** ... in `n` more steps. */
  ghost predicate Leads(env: Env, p: Path, q: Path, n: nat)
    decreases n
  {
    if n == 0 then Opens(env, p, q) else exists m :: Opens(env, p, m) && Leads(env, m, q, n - 1)
  }

  ghost predicate Reaches(env: Env, p: Path, q: Path) { exists n: nat :: Leads(env, p, q, n) }

  ghost predicate NoCycle(env: Env) { forall p :: p in env.manifests ==> !Reaches(env, p, p) }

  lemma {:induction false} OpensThenReaches(env: Env, p: Path, m: Path, q: Path)
    requires Opens(env, p, m) && Reaches(env, m, q)
    ensures Reaches(env, p, q)
  {
    hide Opens;
    var n: nat :| Leads(env, m, q, n);
    assert Leads(env, p, q, n + 1);
  }

  ghost function Reach(env: Env, p: Path): set<Path> { set q | q in env.manifests && Reaches(env, p, q) }

  /** How many manifests a manifest leads to. */
  ghost function RankOf(env: Env): Ranks { map p | p in env.manifests :: |Reach(env, p)| }

  lemma {:induction false} ReachShrinks(env: Env, p: Path, q: Path)
    requires NoCycle(env) && Opens(env, p, q)
    ensures q in env.manifests && |Reach(env, q)| < |Reach(env, p)|
  {
    hide IncludeTarget;
    var i :| 0 <= i < |env.manifests[p]| && IncludeTarget(env, env.manifests[p][i]) == Some(q);
    assert q in env.manifests;
    assert Leads(env, p, q, 0);
    assert q in Reach(env, p) && q !in Reach(env, q);
    forall x | x in Reach(env, q) ensures x in Reach(env, p) { OpensThenReaches(env, p, q, x); }
    Smaller(Reach(env, q), Reach(env, p), q);
  }

  lemma {:induction false} Smaller(a: set<Path>, b: set<Path>, x: Path)
    requires a <= b && x in b && x !in a
    ensures |a| < |b|
  {
    var c := b - {x};
    assert |c| == |b| - 1;
    SizeGrows(a, c);
  }

  lemma {:induction false} SizeGrows(a: set<Path>, b: set<Path>)
    requires a <= b
    ensures |a| <= |b|
  {
    assert b == a + (b - a);
  }

  lemma {:induction false} RankWorks(env: Env)
    requires NoCycle(env)
    ensures Acyclic(env, RankOf(env))
  {
    hide IncludeTarget, NoCycle, Reach;
    var rank := RankOf(env);
    forall p | p in env.manifests ensures p in rank && Bounded(env, rank, env.manifests[p], rank[p]) {
      forall i | 0 <= i < |env.manifests[p]| && IncludeTarget(env, env.manifests[p][i]).Some?
        ensures var t := IncludeTarget(env, env.manifests[p][i]).value; t in rank && rank[t] < rank[p]
      {
        ReachShrinks(env, p, IncludeTarget(env, env.manifests[p][i]).value);
      }
    }
  }

  lemma {:induction false} RankFalls(env: Env, rank: Ranks, p: Path, q: Path, n: nat)
    requires Acyclic(env, rank) && Leads(env, p, q, n)
    ensures p in rank && q in rank && rank[q] < rank[p]
    decreases n
  {
    hide IncludeTarget;
    if n > 0 {
      var m :| Opens(env, p, m) && Leads(env, m, q, n - 1);
      assert Leads(env, p, m, 0);
      RankFalls(env, rank, p, m, 0);
      RankFalls(env, rank, m, q, n - 1);
    }
  }

  /** Ranks exist exactly when no manifest leads back to itself. */
  lemma {:induction false} RanksExact(env: Env)
    ensures NoCycle(env) <==> exists rank :: Acyclic(env, rank)
  {
    hide Acyclic, Leads;
    if NoCycle(env) { RankWorks(env); }
    if rank :| Acyclic(env, rank) {
      forall p | p in env.manifests ensures !Reaches(env, p, p) {
        if n: nat :| Leads(env, p, p, n) { RankFalls(env, rank, p, p, n); }
      }
    }
  }

  // ---- the expansion of any stack -----------------------------------------

  /** A bound for every open manifest. */
  ghost function Bounds(env: Env, stack: seq<seq<Line>>): seq<nat> { seq(|stack|, _ => |env.manifests| + 1) }

  lemma {:induction false} AllBounded(env: Env, stack: seq<seq<Line>>)
    requires NoCycle(env)
    ensures Acyclic(env, RankOf(env)) && StackOk(env, RankOf(env), stack, Bounds(env, stack))
  {
    hide NoCycle, Acyclic, IncludeTarget;
    RankWorks(env);
    forall p | p in env.manifests ensures |Reach(env, p)| <= |env.manifests| {
      hide Reaches;
      assert Reach(env, p) <= env.manifests.Keys;
      SizeGrows(Reach(env, p), env.manifests.Keys);
    }
  }

  /** The lines of all open manifests in the order of their execution. */
  ghost function Expansion(env: Env, stack: seq<seq<Line>>): seq<Line>
    requires NoCycle(env)
  {
    AllBounded(env, stack);
    ExpandStack(env, RankOf(env), stack, Bounds(env, stack))
  }

  // ---- a manifest that never ends -----------------------------------------

  /** One round of the loop over the stack; None once it has ended. */
  function Round(env: Env, stack: seq<seq<Line>>, run: Run): Option<(seq<seq<Line>>, Run)> {
    if stack == [] then None
    else
      var n := |stack| - 1;
      if stack[n] == [] then Some((stack[..n], run))
      else
        var rest, t := stack[..n] + [stack[n][1..]], IncludeTarget(env, stack[n][0]);
        if t.Some? then Some((rest + [env.manifests[t.value]], run))
        else
          var r := LineRun(env, run, stack[n][0]);
          if r.out.Err? then None else Some((rest, r.run))
  }

  function AfterRounds(env: Env, stack: seq<seq<Line>>, run: Run, n: nat): Option<(seq<seq<Line>>, Run)>
    decreases n
  {
    hide Round;
    if n == 0 then Some((stack, run))
    else
      var next := Round(env, stack, run);
      if next.None? then None else AfterRounds(env, next.value.0, next.value.1, n - 1)
  }

  /** A manifest whose first line includes itself is never done: the stack grows with
      every round, and nothing is archived. */
  lemma {:induction false} SelfIncludeNeverEnds(env: Env, below: seq<seq<Line>>, p: Path, run: Run, n: nat)
    requires p in env.manifests && env.manifests[p] != [] && IncludeTarget(env, env.manifests[p][0]) == Some(p)
    ensures var r := AfterRounds(env, below + [env.manifests[p]], run, n);
            r.Some? && |r.value.0| == |below| + 1 + n && r.value.1 == run
    decreases n
  {
    hide IncludeTarget, LineRun;
    if n > 0 {
      var m := env.manifests[p];
      var stack := below + [m];
      assert stack[..|stack| - 1] == below && stack[|stack| - 1] == m;
      SelfIncludeNeverEnds(env, below + [m[1..]], p, run, n - 1);
    }
  }
}
