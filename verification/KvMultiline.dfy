/** Values that span several physical lines. */
module KvMultiline {
  import opened Strings
  import opened KvAutomaton
  import opened KvProcess

  // ---- the state behind a continued buffer --------------------------------

  predicate AllSpace(s: string) { forall i :: 0 <= i < |s| ==> IsSpace(s[i]) }

  lemma {:induction false} RunLast(vars: VarMap, s: State, t: string)
    requires t != []
    ensures Run(vars, s, t) == Step(vars, Run(vars, s, StripLast(t)), t[|t| - 1])
  {
    assert t == StripLast(t) + [t[|t| - 1]];
    RunConcat(vars, s, StripLast(t), [t[|t| - 1]]);
  }

  /** Inside one physical line: `Blank` and a comment only outside quotes, a
      pending escape only directly behind a backslash. */
  lemma {:induction false} LineInvariant(vars: VarMap, t: string)
    requires Free(t, Newline)
    ensures var s := Run(vars, START, t);
            && (s.mode.Blank? || s.mode.Stop? ==> s.quote == Unquoted)
            && (s.mode.Escape? ==> s.quote != Single && EndsWith(t, '\\'))
    decreases |t|
  {
    if t != [] {
      RunLast(vars, START, t);
      assert !Newline(t[|t| - 1]);
      LineInvariant(vars, StripLast(t));
    }
  }

  /** White space never changes the open quote. */
  lemma {:induction false} RunSpace(vars: VarMap, s: State, w: string)
    requires AllSpace(w) && w != []
    ensures var s1 := Run(vars, s, w);
            && s1.quote == s.quote
            && (s.mode.Fail? || s.mode.Dollar? ==> s1.mode.Fail?)
            && (s.mode.Name? ==> s1.mode.Name? || s1.mode.Fail?)
            && (s.mode.Blank? ==> s1.mode.Blank?)
            && (s.mode.Stop? ==> s1.mode.Stop?)
            && !s1.mode.Ref?
    decreases |w|
  {
    var s1 := Step(vars, s, w[0]);
    SpaceStep(vars, s, w[0]);
    if |w| > 1 { RunSpace(vars, s1, w[1..]); } else { assert w[1..] == []; }
  }

  lemma SpaceStep(vars: VarMap, s: State, c: char)
    requires IsSpace(c)
    ensures var s1 := Step(vars, s, c);
            && s1.quote == s.quote
            && (s.mode.Fail? || s.mode.Dollar? ==> s1.mode.Fail?)
            && (s.mode.Name? ==> s1.mode.Name? || s1.mode.Fail?)
            && (s.mode.Blank? ==> s1.mode.Blank?)
            && (s.mode.Stop? ==> s1.mode.Stop?)
            && !s1.mode.Ref?
  {
  }

  /** A state from which a quote can still be open at a line end. */
  predicate Open(s: State) {
    s.quote != Unquoted && (s.mode.Plain? || s.mode.Escape? || s.mode.Ref? || s.mode.Tail? || s.mode.Cut?)
  }

  /** One blank resumes plain text from every open state. */
  lemma BlankResumes(vars: VarMap, s: State)
    requires Open(s)
    ensures Run(vars, s, " ").mode == Plain && Run(vars, s, " ").quote == s.quote
  {
    assert Run(vars, s, " ") == Step(vars, s, ' ');
  }

  /** The last backslash of the line is itself escaped. */
  ghost predicate EndsInEscapedBackslash(vars: VarMap, t: string, q: Quote) {
    var u := TrimEnd(t);
    q == Double && EndsWith(u, '\\') && Run(vars, START, StripLast(u)).mode == Escape
  }

  lemma TrimEndIs(s: string, r: string)
    requires |r| <= |s| && r == s[..|r|] && AllSpace(s[|r|..])
    requires r != [] ==> !IsSpace(r[|r| - 1])
    ensures TrimEnd(s) == r
  {
  }

  /** Before the line end, an open line is in an open state, and trimming it
      leaves an open state as well. */
  lemma {:induction false} OpenBeforeSpace(vars: VarMap, u: string, w: string)
    requires Free(u, Newline) && AllSpace(w)
    requires Run(vars, START, u + w).quote != Unquoted
    requires w == [] ==> Open(Run(vars, START, u))
    requires w != [] ==> Finish(Run(vars, START, u + w), u + w).Value?
    ensures Open(Run(vars, START, u)) && Run(vars, START, u).quote == Run(vars, START, u + w).quote
  {
    RunConcat(vars, START, u, w);
    LineInvariant(vars, u);
    if w == [] { assert u + w == u; } else { RunSpace(vars, Run(vars, START, u), w); }
  }

  lemma {:induction false} TrimSplit(t: string)
    ensures var u := TrimEnd(t); AllSpace(t[|u|..]) && t == u + t[|u|..]
  {
  }

  lemma {:induction false} ContinuedCut(vars: VarMap, p: string)
    requires Free(p, Newline)
    requires Open(Run(vars, START, p)) && Run(vars, START, p).quote == Double
    ensures var c := TrimEnd(p) + if |TrimEnd(p)| == |p| then "" else " ";
            var s := Run(vars, START, c);
            && Open(s) && s.quote == Double
            && (s.mode.Escape? <==> Run(vars, START, p).mode.Escape?)
  {
    var r := TrimEnd(p);
    TrimSplit(p);
    if |r| == |p| {
      assert r == p && r + "" == p;
    } else {
      var w := p[|r|..];
      assert Free(r, Newline);
      OpenBeforeSpace(vars, r, w);
      RunConcat(vars, START, r, " ");
      BlankResumes(vars, Run(vars, START, r));
      LineInvariant(vars, p);
      assert p[|p| - 1] == w[|w| - 1];
    }
  }

  /** The kept text is scanned again with every new physical line. It leads back
      to the same open quote without an error, ready for more text, exactly
      unless the line ends in an escaped backslash: then half of the escape is
      cut off, and the next line starts inside it. */
  lemma {:induction false} ContinuedResumes(vars: VarMap, t: string, q: Quote, v: string)
    requires Free(t, Newline)
    requires Meaning(vars, START, t + "\n") == Value(q, v) && q != Unquoted
    ensures var s := Run(vars, START, Continued(t + "\n", q));
            && Open(s) && s.quote == q
            && (s.mode.Escape? <==> EndsInEscapedBackslash(vars, t, q))
  {
    var u := TrimEnd(t);
    OpenTrimmed(vars, t, q, v);
    LineInvariant(vars, u);
    if EndsWith(u, '\\') && q == Double {
      var p := StripLast(u);
      RunLast(vars, START, u);
      assert Free(p, Newline);
      LineInvariant(vars, p);
      BeforeBackslash(vars, Run(vars, START, p));
      ContinuedCut(vars, p);
    } else {
      RunConcat(vars, START, u, " ");
      BlankResumes(vars, Run(vars, START, u));
    }
  }

  lemma {:induction false} OpenTrimmed(vars: VarMap, t: string, q: Quote, v: string)
    requires Free(t, Newline)
    requires Meaning(vars, START, t + "\n") == Value(q, v) && q != Unquoted
    ensures var u := TrimEnd(t);
            && TrimEnd(t + "\n") == u && Free(u, Newline)
            && Open(Run(vars, START, u)) && Run(vars, START, u).quote == q
  {
    var u := TrimEnd(t);
    TrimSplit(t);
    var w := t[|u|..] + "\n";
    assert t + "\n" == u + w;
    LineEndKeepsQuote(vars, t, q, v);
    OpenBeforeSpace(vars, u, w);
    assert (t + "\n")[|u|..] == w;
    TrimEndIs(t + "\n", u);
  }

  lemma BeforeBackslash(vars: VarMap, s: State)
    requires Open(Step(vars, s, '\\')) && Step(vars, s, '\\').quote == Double
    requires s.mode.Blank? || s.mode.Stop? ==> s.quote == Unquoted
    ensures Open(s) && s.quote == Double
  {
  }

  /** The open quote reported for a line is the quote of the state it ends in. */
  lemma {:induction false} LineEndKeepsQuote(vars: VarMap, t: string, q: Quote, v: string)
    requires Meaning(vars, START, t + "\n") == Value(q, v)
    ensures Run(vars, START, t + "\n").quote == q
  {
    RunConcat(vars, START, t, "\n");
    RunSpace(vars, Run(vars, START, t), "\n");
  }

  // ---- whole lines --------------------------------------------------------

  lemma {:induction false} TrimEndBehind(a: string, t: string)
    requires a != [] && !IsSpace(a[|a| - 1])
    ensures TrimEnd(a + t) == a + TrimEnd(t)
  {
    var u := TrimEnd(t);
    TrimSplit(t);
    assert (a + t)[|a + u|..] == t[|u|..];
    TrimEndIs(a + t, a + u);
  }

  /** Continuing a line keeps its key and continues its value. */
  lemma {:induction false} ContinuedBehind(a: string, t: string, q: Quote)
    requires a != [] && !IsSpace(a[|a| - 1]) && a[|a| - 1] != '\\'
    ensures Continued(a + t, q) == a + Continued(t, q)
  {
    TrimEndBehind(a, t);
    var u := TrimEnd(t);
    assert EndsWith(a + u, '\\') == EndsWith(u, '\\');
    if EndsWith(u, '\\') && q == Double {
      var p := StripLast(u);
      assert StripLast(a + u) == a + p;
      TrimEndBehind(a, p);
      var pad := if |TrimEnd(p)| == |p| then "" else " ";
      Assoc(a, TrimEnd(p), pad);
    } else {
      Assoc(a, u, " ");
    }
  }

  lemma Assoc(a: string, b: string, c: string)
    ensures a + b + c == a + (b + c)
  {
  }

  lemma {:induction false} ContinuedKeeps(line: string, vars: VarMap)
    requires LineMeaning(line, vars).More?
    ensures LineMeaning(line, vars).buffer != []
  {
    hide Meaning, Continued, TrimStart;
    var trimmed := TrimStart(line);
    var i := Find(trimmed, EqualsSign);
    ContinuedNonEmpty(trimmed, i, Meaning(vars, START, trimmed[i + 1..]).quote);
  }

  lemma {:induction false} ContinuedNonEmpty(s: string, i: nat, q: Quote)
    requires i < |s| && s[i] == '='
    ensures Continued(s, q) != []
  {
    var a := s[..i + 1];
    assert s == a + s[i + 1..];
    ContinuedBehind(a, s[i + 1..], q);
  }

  /** What is kept of a line, `w` being white space behind it: the text `u` and one
      blank. In double quotes a backslash behind the text takes the blank away, unless
      white space stands before the backslash. */
  lemma {:induction false} KeptText(u: string, v: string, w: string, q: Quote)
    requires u != [] && !IsSpace(u[|u| - 1]) && AllSpace(v) && AllSpace(w)
    ensures !(q == Double && EndsWith(u, '\\')) ==> Continued(u + w, q) == u + " "
    ensures Continued(u + v + "\\" + w, Double) == u + if v == [] then "" else " "
  {
    assert (u + w)[|u|..] == w;
    TrimEndIs(u + w, u);
    var b := u + v + "\\";
    assert (b + w)[|b|..] == w;
    TrimEndIs(b + w, b);
    assert StripLast(b) == u + v;
    assert (u + v)[|u|..] == v;
    TrimEndIs(u + v, u);
  }
}
