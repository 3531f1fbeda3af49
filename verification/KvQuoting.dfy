/** What the quoting automaton of the configuration language guarantees: three
    ways to write any value, and the state in which a continued line resumes. */
module KvQuoting {
  import opened Strings
  import opened KvAutomaton
  import opened KvProcess

  // ---- writing values -----------------------------------------------------

  datatype Style = InSingle | InDouble | Bare

  predicate Escaped(style: Style, c: char) {
    match style
    case InSingle => false
    case InDouble => c == '\\' || c == '\"' || c == '$'
    case Bare => c == '\\' || c == '\"' || c == '\'' || c == ' ' || c == '\t' || c == '$'
  }

  function EscapeText(style: Style, v: string): string {
    if v == [] then []
    else (if Escaped(style, v[0]) then ['\\', v[0]] else [v[0]]) + EscapeText(style, v[1..])
  }

  /** `v` written in one of the three styles. */
  function Quoted(style: Style, v: string): string {
    match style
    case InSingle => "\'" + v + "\'"
    case InDouble => "\"" + EscapeText(InDouble, v) + "\""
    case Bare => EscapeText(Bare, v)
  }

  predicate Writable(style: Style, v: string) {
    Free(v, Newline) && (style == InSingle ==> '\'' !in v)
  }

  predicate ValidKey(key: string) {
    && key != "" && Free(key, BadKeyChar) && Free(key, EqualsSign)
    && !IsSpace(key[0])
  }

  function QuoteOf(style: Style): Quote {
    match style case InSingle => Single case InDouble => Double case Bare => Unquoted
  }

  lemma {:induction false} RunEscapeText(vars: VarMap, style: Style, out: string, v: string)
    requires Writable(style, v)
    ensures var s := State(QuoteOf(style), Plain, out);
            Run(vars, s, EscapeText(style, v)) == s.(out := out + v)
    decreases |v|
  {
    var s := State(QuoteOf(style), Plain, out);
    if v == [] {
      assert out + v == out;
    } else {
      var head := if Escaped(style, v[0]) then ['\\', v[0]] else [v[0]];
      RunConcat(vars, s, head, EscapeText(style, v[1..]));
      RunOne(vars, style, out, v[0]);
      assert forall i :: 0 <= i < |v[1..]| ==> v[1..][i] == v[i + 1];
      RunEscapeText(vars, style, out + [v[0]], v[1..]);
      assert out + [v[0]] + v[1..] == out + v;
    }
  }

  lemma {:induction false} RunOne(vars: VarMap, style: Style, out: string, c: char)
    requires c != '\n' && (style == InSingle ==> c != '\'')
    ensures var s := State(QuoteOf(style), Plain, out);
            Run(vars, s, if Escaped(style, c) then ['\\', c] else [c]) == s.(out := out + [c])
  {
    var s := State(QuoteOf(style), Plain, out);
    if Escaped(style, c) {
      var s1 := Step(vars, s, '\\');
      assert ['\\', c][1..] == [c];
      assert Run(vars, s, ['\\', c]) == Run(vars, s1, [c]) == Step(vars, s1, c);
    } else {
      assert Run(vars, s, [c]) == Step(vars, s, c);
    }
  }

  lemma {:induction false} SingleIsVerbatim(v: string)
    ensures EscapeText(InSingle, v) == v
    decreases |v|
  {
    if v != [] {
      SingleIsVerbatim(v[1..]);
      assert v == [v[0]] + v[1..];
    }
  }

  /** Every style leads the automaton from the start to the closed, plain value. */
  lemma {:induction false} RunQuoted(vars: VarMap, style: Style, v: string)
    requires Writable(style, v)
    ensures Run(vars, START, Quoted(style, v)) == State(Unquoted, Plain, v)
  {
    var q := QuoteOf(style);
    RunEscapeText(vars, style, "", v);
    assert "" + v == v;
    if style != Bare {
      var mark := if style == InSingle then '\'' else '\"';
      var inner := EscapeText(style, v);
      SingleIsVerbatim(v);
      assert Quoted(style, v) == [mark] + (inner + [mark]);
      RunConcat(vars, START, [mark], inner + [mark]);
      assert Run(vars, START, [mark]) == Step(vars, START, mark) == State(q, Plain, "");
      RunConcat(vars, State(q, Plain, ""), inner, [mark]);
      assert Run(vars, State(q, Plain, v), [mark]) == Step(vars, State(q, Plain, v), mark);
    }
  }

  /** Quoting round trip: `KEY=value` in any style, with or without a line end,
      reads back as exactly that pair. */
  lemma {:induction false} QuotedRoundTrip(vars: VarMap, style: Style, key: string, v: string, eol: string)
    requires ValidKey(key) && Writable(style, v) && (eol == "" || eol == "\n")
    ensures LineMeaning(key + "=" + Quoted(style, v) + eol, vars) == Pair(key, v)
  {
    var val := Quoted(style, v) + eol;
    var line := key + "=" + Quoted(style, v) + eol;
    assert line == key + "=" + val;
    LineSplits(key, val, vars);
    RunQuoted(vars, style, v);
    RunConcat(vars, START, Quoted(style, v), eol);
    var s := State(Unquoted, Plain, v);
    if eol == "\n" {
      assert Run(vars, s, eol) == Step(vars, s, '\n') == s.(out := v + "\n");
      assert (v + "\n")[..|v + "\n"| - 1] == v;
    } else {
      assert val == Quoted(style, v);
      NoLineEnd(style, v);
    }
  }

  /** A line `key=val` with a valid key is read as the meaning of `val`. */
  lemma {:induction false} LineSplits(key: string, val: string, vars: VarMap)
    requires ValidKey(key)
    ensures var line := key + "=" + val;
            && TrimStart(line) == line
            && LineMeaning(line, vars) ==
               match Meaning(vars, START, val)
               case Failed(e) => Bad(e)
               case Value(q, v) => if q != Unquoted then More(Continued(line, q)) else Pair(key, v)
  {
    var line := key + "=" + val;
    assert line[0] == key[0] && !IsSpace(line[0]);
    assert line[0] != '#' by { assert !BadKeyChar(key[0]); }
    FindIsFirst(line, EqualsSign, |key|);
    assert line[..|key|] == key && line[|key| + 1..] == val;
  }

  lemma {:induction false} NoLineEnd(style: Style, v: string)
    requires Writable(style, v)
    ensures Free(Quoted(style, v), Newline)
  {
    EscapeNoLineEnd(style, v);
    SingleIsVerbatim(v);
  }

  lemma {:induction false} EscapeNoLineEnd(style: Style, v: string)
    requires Free(v, Newline)
    ensures Free(EscapeText(style, v), Newline)
    decreases |v|
  {
    if v != [] {
      assert forall i :: 0 <= i < |v[1..]| ==> v[1..][i] == v[i + 1];
      EscapeNoLineEnd(style, v[1..]);
    }
  }

  // ---- references ---------------------------------------------------------

  /** A reference outside single quotes succeeds exactly when its key is known. */
  lemma {:induction false} ReferenceKnown(vars: VarMap, s: State, name: string)
    requires s.mode.Plain? && s.quote != Single && Free(name, Special)
    ensures Run(vars, s, "${" + name + "}") ==
            s.(mode := if name in vars then Ref(vars[name]) else Fail(UnknownVariable))
  {
    var s1 := s.(mode := Name(""));
    RunConcat(vars, s, "${", name + "}");
    assert "${" + (name + "}") == "${" + name + "}";
    assert "${"[1..] == "{" && "{"[1..] == "";
    assert Run(vars, s, "${") == Step(vars, Step(vars, s, '$'), '{') == s1;
    RunConcat(vars, s1, name, "}");
    RunName(vars, s1, name);
    assert "" + name == name;
    assert Run(vars, s1.(mode := Name(name)), "}") == Step(vars, s1.(mode := Name(name)), '}');
  }
}
