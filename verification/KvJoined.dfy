/** Values that span any number of physical lines: a file of such lines reads like
    the single line they join to, and any quoted value can be written that way. */
module KvJoined {
  import opened Strings
  import opened KvAutomaton
  import opened KvProcess
  import opened KvQuoting
  import opened KvConf
  import opened KvMultiline

  // ---- the joined line ----------------------------------------------------

  /** The quote that the value text `t` leaves open at its line end. */
  function OpenQuote(vars: VarMap, t: string): Quote {
    match Meaning(vars, START, t + "\n") case Failed(_) => Unquoted case Value(q, _) => q
  }

  /** What is kept of `t` in front of the next line. */
  function Kept(vars: VarMap, t: string): string { Continued(t + "\n", OpenQuote(vars, t)) }

  /** The value text of all lines on one line. */
  function Joined(vars: VarMap, t: string, more: seq<string>): string
    decreases |more|
  {
    if more == [] then t else Joined(vars, Kept(vars, t) + more[0], more[1..])
  }

  /** Every line but the last leaves a quote open. */
  predicate OpenThrough(vars: VarMap, t: string, more: seq<string>)
    decreases |more|
  {
    more != [] ==> OpenQuote(vars, t) != Unquoted && OpenThrough(vars, Kept(vars, t) + more[0], more[1..])
  }

  predicate Physical(line: string) { Free(line, Newline) && |line| < CONF_LINE_MAX }

  predicate AllPhysical(lines: seq<string>) { forall i :: 0 <= i < |lines| ==> Physical(lines[i]) }

  function Text(lines: seq<string>): string {
    if lines == [] then "" else lines[0] + "\n" + Text(lines[1..])
  }

  /** The rest of a file behind a line. */
  function Behind(line: LineResult, rest: string, vars: VarMap): FileResult {
    match line
    case Bad(e) => Failure(BadLine(e), vars)
    case Nothing => FileMeaning(rest, "", vars)
    case Pair(k, v) => FileMeaning(rest, "", vars[k := v])
    case More(b) => FileMeaning(rest, b, vars)
  }

  lemma {:induction false} OpenLineKeeps(vars: VarMap, key: string, t: string)
    requires ValidKey(key) && OpenQuote(vars, t) != Unquoted
    ensures LineMeaning(key + "=" + (t + "\n"), vars) == More(key + "=" + Kept(vars, t))
  {
    hide LineMeaning, Continued, Meaning;
    LineSplits(key, t + "\n", vars);
    ContinuedBehind(key + "=", t + "\n", OpenQuote(vars, t));
  }

  lemma {:induction false} BufferedLines(vars: VarMap, key: string, buffer: string, line: string, t: string, more: seq<string>, rest: string)
    requires ValidKey(key) && buffer + line == key + "=" + t && Physical(line) && AllPhysical(more)
    requires OpenThrough(vars, t, more)
    ensures FileMeaning(Text([line] + more) + rest, buffer, vars) ==
            Behind(LineMeaning(key + "=" + (Joined(vars, t, more) + "\n"), vars), rest, vars)
    decreases |more|
  {
    hide LineMeaning, FileMeaning, OpenQuote, Kept, ValidKey;
    var lines := [line] + more;
    assert lines[1..] == more;
    var tail := Text(more) + rest;
    Assoc(line + "\n", Text(more), rest);
    OneLine(line, tail, buffer, vars);
    Assoc(buffer, line, "\n");
    Assoc(key + "=", t, "\n");
    if more == [] {
      assert tail == rest;
    } else {
      OpenLineKeeps(vars, key, t);
      var kept := Kept(vars, t);
      Assoc(key + "=", kept, more[0]);
      assert [more[0]] + more[1..] == more;
      BufferedLines(vars, key, key + "=" + kept, more[0], kept + more[0], more[1..], rest);
    }
  }

  /** Any number of physical lines of one value, whatever their quotes, references,
      blank lines and backslashes, read like their single joined line. */
  lemma {:induction false} LinesJoin(vars: VarMap, key: string, t: string, more: seq<string>, rest: string)
    requires ValidKey(key) && AllPhysical([key + "=" + t] + more) && OpenThrough(vars, t, more)
    ensures FileMeaning(Text([key + "=" + t] + more) + rest, "", vars) ==
            Behind(LineMeaning(key + "=" + (Joined(vars, t, more) + "\n"), vars), rest, vars)
  {
    hide LineMeaning, FileMeaning, ValidKey, OpenThrough, Joined;
    var line := key + "=" + t;
    assert "" + line == line;
    assert ([line] + more)[0] == line;
    forall i | 0 <= i < |more| ensures Physical(more[i]) { assert ([line] + more)[i + 1] == more[i]; }
    BufferedLines(vars, key, "", line, t, more, rest);
  }

  /** Each line of the joined line is read from the quote that the line before left
      open, and ready for text, if and only if that one, with all it was joined to,
      does not end in an escaped backslash. */
  lemma {:induction false} JoinedReads(vars: VarMap, t: string, more: seq<string>, k: nat)
    requires Free(t, Newline) && AllPhysical(more) && OpenThrough(vars, t, more) && k < |more|
    ensures var before := Joined(vars, t, more[..k]);
            var q := OpenQuote(vars, before);
            var s := Run(vars, START, Kept(vars, before));
            && q != Unquoted && Open(s) && s.quote == q
            && (s.mode.Escape? <==> EndsInEscapedBackslash(vars, before, q))
            && Run(vars, START, Joined(vars, t, more[..k + 1])) == Run(vars, s, more[k])
    decreases |more|
  {
    hide OpenQuote, Kept, EndsInEscapedBackslash, Run;
    var next := Kept(vars, t) + more[0];
    if k == 0 {
      assert more[..0] == [] && more[..1] == [more[0]] && more[..1][1..] == [];
      KeptResumes(vars, t);
      RunConcat(vars, START, Kept(vars, t), more[0]);
    } else {
      KeptFree(vars, t);
      assert Free(next, Newline);
      assert more[..k][0] == more[0] && more[..k][1..] == more[1..][..k - 1];
      assert more[..k + 1][0] == more[0] && more[..k + 1][1..] == more[1..][..k];
      JoinedReads(vars, next, more[1..], k - 1);
    }
  }

  lemma {:induction false} KeptResumes(vars: VarMap, t: string)
    requires Free(t, Newline) && OpenQuote(vars, t) != Unquoted
    ensures var q := OpenQuote(vars, t);
            var s := Run(vars, START, Kept(vars, t));
            Open(s) && s.quote == q && (s.mode.Escape? <==> EndsInEscapedBackslash(vars, t, q))
  {
    hide Run, Meaning, Continued, EndsInEscapedBackslash;
    var m := Meaning(vars, START, t + "\n");
    ContinuedResumes(vars, t, m.quote, m.text);
  }

  lemma {:induction false} KeptFree(vars: VarMap, t: string)
    requires Free(t, Newline)
    ensures Free(Kept(vars, t), Newline)
  {
    hide OpenQuote;
    var u := TrimEnd(t + "\n");
    if u != [] { assert u[|u| - 1] != '\n'; }
    assert |u| <= |t|;
    assert forall i :: 0 <= i < |u| ==> u[i] == t[i];
  }

  /** A value whose lines all leave a quote open fails at the end of the file. */
  lemma {:induction false} OpenLinesFail(a: string, vars0: VarMap, key: string, t: string, more: seq<string>)
    requires Complete(a) && FileMeaning(a, "", vars0).Done?
    requires var vars := FileMeaning(a, "", vars0).vars;
             && ValidKey(key) && AllPhysical([key + "=" + t] + more) && OpenThrough(vars, t, more)
             && OpenQuote(vars, Joined(vars, t, more)) != Unquoted
    ensures FileMeaning(a + Text([key + "=" + t] + more), "", vars0) == Failure(UnexpectedEof, FileMeaning(a, "", vars0).vars)
  {
    hide LineMeaning, OpenThrough, Joined, ValidKey, Scan, OpenQuote, Kept, AllPhysical, ReadLine, FirstLine;
    var vars := FileMeaning(a, "", vars0).vars;
    var text := Text([key + "=" + t] + more);
    OpenQuoteFails(a, "", vars0);
    FilesCompose(a, text, "", vars0);
    assert text + "" == text;
    LinesJoin(vars, key, t, more, "");
    OpenLineKeeps(vars, key, Joined(vars, t, more));
    assert key + "=" + Kept(vars, Joined(vars, t, more)) != [];
  }

  // ---- writing a value over several lines ---------------------------------

  function Mark(style: Style): char { if style == InSingle then '\'' else '\"' }

  /** A line inside the quotes; `cont` when a backslash behind the text joins the next
      line without a blank. */
  datatype Piece = Piece(text: string, cont: bool)

  function Backslash(p: Piece): string { if p.cont then "\\" else "" }

  /** The pieces, one per physical line, then the last text with the closing quote. */
  function Spread(style: Style, ps: seq<Piece>, last: string): string {
    if ps == [] then EscapeText(style, last) + [Mark(style)] + "\n"
    else EscapeText(style, ps[0].text) + Backslash(ps[0]) + "\n" + Spread(style, ps[1..], last)
  }

  /** The value so far, sealed by a line end: white space at the line end and the line
      end together are one blank, unless a backslash directly behind text hides it. */
  function Sealed(x: string, cont: bool): string {
    if cont && (x == [] || !IsSpace(x[|x| - 1])) then x else TrimEnd(x) + " "
  }

  function ValueOf(x: string, ps: seq<Piece>, last: string): string
    decreases |ps|
  {
    if ps == [] then x + last else ValueOf(Sealed(x + ps[0].text, ps[0].cont), ps[1..], last)
  }

  /** Backslashes join lines in double quotes only, and there a line may not end in a
      backslash of the value unless one that joins follows it. */
  predicate CanEnd(style: Style, x: string, cont: bool) {
    if cont then style == InDouble else style == InDouble ==> !EndsWith(TrimEnd(x), '\\')
  }

  predicate CanSpread(style: Style, x: string, ps: seq<Piece>, last: string)
    decreases |ps|
  {
    if ps == [] then Writable(style, last) && |EscapeText(style, last)| + 1 < CONF_LINE_MAX
    else
      var p := ps[0];
      && Writable(style, p.text) && |EscapeText(style, p.text)| + 1 < CONF_LINE_MAX
      && CanEnd(style, x + p.text, p.cont)
      && CanSpread(style, Sealed(x + p.text, p.cont), ps[1..], last)
  }

  lemma {:induction false} EscapeConcat(style: Style, a: string, b: string)
    ensures EscapeText(style, a + b) == EscapeText(style, a) + EscapeText(style, b)
    decreases |a|
  {
    if a == [] {
      assert a + b == b;
    } else {
      assert (a + b)[1..] == a[1..] + b;
      EscapeConcat(style, a[1..], b);
    }
  }

  lemma {:induction false} EscapeLast(style: Style, w: string)
    requires w != []
    ensures EscapeText(style, w) != []
    ensures EscapeText(style, w)[|EscapeText(style, w)| - 1] == w[|w| - 1]
  {
    assert w == StripLast(w) + [w[|w| - 1]];
    EscapeConcat(style, StripLast(w), [w[|w| - 1]]);
    assert EscapeText(style, []) == [];
  }

  lemma {:induction false} EscapeSpace(style: Style, w: string)
    requires style != Bare && AllSpace(w)
    ensures EscapeText(style, w) == w
    decreases |w|
  {
    if w != [] { EscapeSpace(style, w[1..]); }
  }

  function OpenText(style: Style, x: string): string { [Mark(style)] + EscapeText(style, x) }

  /** A line up to the open quote and the text `x` behind it. */
  function Head(key: string, style: Style, x: string): string { key + "=" + OpenText(style, x) }

  lemma {:induction false} OpenAppend(style: Style, x: string, w: string)
    ensures OpenText(style, x + w) == OpenText(style, x) + EscapeText(style, w)
  {
    EscapeConcat(style, x, w);
    Assoc([Mark(style)], EscapeText(style, x), EscapeText(style, w));
  }

  lemma {:induction false} HeadAppend(key: string, style: Style, x: string, w: string)
    ensures Head(key, style, x) + EscapeText(style, w) == Head(key, style, x + w)
  {
    OpenAppend(style, x, w);
    Assoc(key + "=", OpenText(style, x), EscapeText(style, w));
  }

  lemma {:induction false} RunOpenText(vars: VarMap, style: Style, x: string)
    requires style != Bare && Writable(style, x)
    ensures Run(vars, START, OpenText(style, x)) == State(QuoteOf(style), Plain, x)
  {
    var s := State(QuoteOf(style), Plain, "");
    RunConcat(vars, START, [Mark(style)], EscapeText(style, x));
    assert Run(vars, START, [Mark(style)]) == Step(vars, START, Mark(style)) == s;
    RunEscapeText(vars, style, "", x);
    assert "" + x == x;
  }

  lemma {:induction false} OpenTextQuote(vars: VarMap, style: Style, x: string, cont: bool)
    requires style != Bare && Writable(style, x) && (cont ==> style == InDouble)
    ensures OpenQuote(vars, OpenText(style, x) + Backslash(Piece("", cont))) == QuoteOf(style)
  {
    hide OpenText, Writable;
    var s := State(QuoteOf(style), Plain, x);
    var t := OpenText(style, x);
    RunOpenText(vars, style, x);
    if cont {
      var e := s.(mode := Escape);
      RunConcat(vars, START, t, "\\");
      assert Run(vars, s, "\\") == Step(vars, s, '\\') == e;
      RunConcat(vars, START, t + "\\", "\n");
      assert Run(vars, e, "\n") == Step(vars, e, '\n') == e.(mode := Stop);
    } else {
      assert t + "" == t;
      RunConcat(vars, START, t, "\n");
      assert Run(vars, s, "\n") == Step(vars, s, '\n') == s.(out := x + "\n");
    }
  }

  /** What is kept of a line is the sealed value. */
  lemma {:induction false} KeptIsSealed(style: Style, x: string, cont: bool)
    requires style != Bare && CanEnd(style, x, cont)
    ensures Continued(OpenText(style, x) + Backslash(Piece("", cont)) + "\n", QuoteOf(style)) == OpenText(style, Sealed(x, cont))
  {
    hide OpenText, Continued, TrimEnd, EscapeText;
    var r := TrimEnd(x);
    var v := x[|r|..];
    var u, q := OpenText(style, r), QuoteOf(style);
    OpenSplit(style, x);
    OpenSolid(style, r);
    if cont {
      KeptText(u, v, "\n", q);
      if v == [] { assert u + "" == u && r == x; } else { assert x[|x| - 1] == v[|v| - 1]; }
    } else {
      KeptText(u, [], v + "\n", q);
      assert u + v + "" + "\n" == u + (v + "\n");
    }
  }

  lemma {:induction false} OpenSplit(style: Style, x: string)
    requires style != Bare
    ensures var r := TrimEnd(x);
            && AllSpace(x[|r|..])
            && OpenText(style, x) == OpenText(style, r) + x[|r|..]
            && OpenText(style, r + " ") == OpenText(style, r) + " "
  {
    hide OpenText, EscapeText;
    var r := TrimEnd(x);
    assert x == r + x[|r|..];
    EscapeSpace(style, x[|r|..]);
    OpenAppend(style, r, x[|r|..]);
    EscapeSpace(style, " ");
    OpenAppend(style, r, " ");
  }

  lemma {:induction false} OpenSolid(style: Style, r: string)
    requires r != [] ==> !IsSpace(r[|r| - 1])
    ensures var u := OpenText(style, r);
            u != [] && !IsSpace(u[|u| - 1]) && (EndsWith(u, '\\') ==> EndsWith(r, '\\'))
  {
    if r != [] { EscapeLast(style, r); }
  }

  lemma {:induction false} SealedWritable(style: Style, x: string, cont: bool)
    requires Writable(style, x)
    ensures Writable(style, Sealed(x, cont))
  {
    var r := TrimEnd(x);
    assert forall i :: 0 <= i < |r| ==> r[i] == x[i];
  }

  lemma {:induction false} MiddleLine(vars: VarMap, key: string, style: Style, x: string, p: Piece, more: string)
    requires ValidKey(key) && style != Bare && Writable(style, x) && Writable(style, p.text)
    requires |EscapeText(style, p.text)| + 1 < CONF_LINE_MAX && CanEnd(style, x + p.text, p.cont)
    ensures FileMeaning(EscapeText(style, p.text) + Backslash(p) + "\n" + more, Head(key, style, x), vars)
         == FileMeaning(more, Head(key, style, Sealed(x + p.text, p.cont)), vars)
  {
    hide LineMeaning, FileMeaning, OpenQuote, OpenText, EscapeText, Sealed, Continued, ValidKey;
    var e, y := EscapeText(style, p.text), x + p.text;
    var t := OpenText(style, y) + Backslash(p);
    EscapeNoLineEnd(style, p.text);
    OneLine(e + Backslash(p), more, Head(key, style, x), vars);
    HeadAppend(key, style, x, p.text);
    Assoc(Head(key, style, x), e, Backslash(p));
    Assoc(key + "=", OpenText(style, y), Backslash(p));
    Assoc(Head(key, style, x), e + Backslash(p), "\n");
    Assoc(key + "=", t, "\n");
    OpenTextQuote(vars, style, y, p.cont);
    OpenLineKeeps(vars, key, t);
    KeptIsSealed(style, y, p.cont);
  }

  lemma {:induction false} LastLine(vars: VarMap, key: string, style: Style, x: string, last: string, rest: string)
    requires ValidKey(key) && style != Bare && Writable(style, x) && Writable(style, last)
    requires |EscapeText(style, last)| + 1 < CONF_LINE_MAX
    ensures FileMeaning(EscapeText(style, last) + [Mark(style)] + "\n" + rest, Head(key, style, x), vars)
         == FileMeaning(rest, "", vars[key := x + last])
  {
    hide LineMeaning, FileMeaning, OpenText, EscapeText, ValidKey, Quoted;
    var e, m := EscapeText(style, last), [Mark(style)];
    EscapeNoLineEnd(style, last);
    OneLine(e + m, rest, Head(key, style, x), vars);
    HeadAppend(key, style, x, last);
    Assoc(Head(key, style, x), e, m);
    Assoc(Head(key, style, x), e + m, "\n");
    Assoc(key + "=", OpenText(style, x + last), m);
    QuotedIs(style, x + last);
    QuotedRoundTrip(vars, style, key, x + last, "\n");
  }

  lemma QuotedIs(style: Style, x: string)
    requires style != Bare
    ensures OpenText(style, x) + [Mark(style)] == Quoted(style, x)
  {
    SingleIsVerbatim(x);
  }

  lemma {:induction false} SpreadReads(vars: VarMap, key: string, style: Style, x: string, ps: seq<Piece>, last: string, rest: string)
    requires ValidKey(key) && style != Bare && Writable(style, x) && CanSpread(style, x, ps, last)
    ensures FileMeaning(Spread(style, ps, last) + rest, Head(key, style, x), vars)
         == FileMeaning(rest, "", vars[key := ValueOf(x, ps, last)])
    decreases |ps|
  {
    hide FileMeaning, Head, EscapeText, Sealed, ValidKey, CanEnd, Writable;
    if ps == [] {
      LastLine(vars, key, style, x, last, rest);
    } else {
      var p, more := ps[0], Spread(style, ps[1..], last);
      Assoc(EscapeText(style, p.text) + Backslash(p) + "\n", more, rest);
      MiddleLine(vars, key, style, x, p, more + rest);
      assert Writable(style, x + p.text) by { WritableConcat(style, x, p.text); }
      SealedWritable(style, x + p.text, p.cont);
      SpreadReads(vars, key, style, Sealed(x + p.text, p.cont), ps[1..], last, rest);
    }
  }

  lemma WritableConcat(style: Style, a: string, b: string)
    requires Writable(style, a) && Writable(style, b)
    ensures Writable(style, a + b)
  {
  }

  lemma {:induction false} FirstLineBehind(h: string, t: string)
    requires Free(h, Newline) && t != []
    ensures FirstLine(h + t) == h + FirstLine(t)
    ensures (h + t)[|h + FirstLine(t)|..] == t[|FirstLine(t)|..]
  {
    var i := Find(t, Newline);
    FindIsFirst(h + t, Newline, |h| + i);
  }

  /** A first line is read as if its beginning came from the buffer. */
  lemma {:induction false} FromBuffer(h: string, t: string, vars: VarMap)
    requires Free(h, Newline) && t != [] && |h| + |FirstLine(t)| <= CONF_LINE_MAX
    ensures FileMeaning(h + t, "", vars) == FileMeaning(t, h, vars)
  {
    hide LineMeaning, FirstLine;
    FirstLineBehind(h, t);
    var line := FirstLine(t);
    assert "" + (h + line) == h + line;
    assert ReadLine("", h + line, vars) == ReadLine(h, line, vars);
  }

  /** Multi-line round trip: a quoted value written over any number of physical lines,
      blank lines and lines joined by a backslash included, reads back as its sealed
      pieces side by side. */
  lemma {:induction false} MultilineRoundTrip(vars: VarMap, key: string, style: Style, ps: seq<Piece>, last: string, rest: string)
    requires ValidKey(key) && Free(key, Newline) && style != Bare && CanSpread(style, "", ps, last)
    requires |Head(key, style, "")| + |FirstLine(Spread(style, ps, last))| <= CONF_LINE_MAX
    ensures FileMeaning(Head(key, style, "") + Spread(style, ps, last) + rest, "", vars)
         == FileMeaning(rest, "", vars[key := ValueOf("", ps, last)])
  {
    hide FileMeaning, Spread, CanSpread, ValueOf, FirstLine, ValidKey;
    var h, t := Head(key, style, ""), Spread(style, ps, last);
    SpreadEnds(style, ps, last);
    FirstLineStable(t, rest);
    assert h + t + rest == h + (t + rest);
    FromBuffer(h, t + rest, vars);
    SpreadReads(vars, key, style, "", ps, last, rest);
  }

  lemma {:induction false} SpreadEnds(style: Style, ps: seq<Piece>, last: string)
    ensures Spread(style, ps, last) != [] && Complete(Spread(style, ps, last))
    decreases |ps|
  {
    if ps != [] { SpreadEnds(style, ps[1..], last); }
  }
}
