/** One configuration line: the block-splitting loop of `kv_process`
    (src/kv-conf/src/lib.rs) and its proof against the character automaton. */
module KvProcess {
  import opened Strings
  import opened KvAutomaton

  datatype Result<+T> = Ok(value: T) | Err(error: Error)

  // ---- kv_var_sub ---------------------------------------------------------

  function VarSub(block: string, vars: VarMap): Result<string>
  {
    var pieces := SplitInclusive(block, Brace);
    if |pieces| == 0 || pieces[0] != "{" then Err(NoBraces)
    else if |pieces| < 2 || !EndsWith(pieces[1], '}') then Err(NoClosingBrace)
    else
      var key := pieces[1][..|pieces[1]| - 1];
      if key !in vars then Err(UnknownVariable)
      else Ok(vars[key] + if |pieces| > 2 then pieces[2] else "")
  }

  predicate EndsWith(s: string, c: char) { s != [] && s[|s| - 1] == c }

  function StripLast(s: string): string
    requires s != []
  {
    s[..|s| - 1]
  }

  // ---- the state between two blocks ---------------------------------------

  function ModeOf(escapeNext: bool, commentNext: bool, varNext: bool): Mode {
    if escapeNext then Escape else if commentNext then Blank(false)
    else if varNext then Dollar else Plain
  }

  /** A block as the splitter delivers it: delimiter-free up to its last
      character, which is a delimiter unless the block ends the input. */
  predicate IsBlock(b: string, rest: string) {
    b != [] && Free(StripLast(b), Delimiter) && (Delimiter(b[|b| - 1]) || rest == [])
  }

  /** The text before a delimiter or line end closing the block, and the rest of
      the automaton's work on it. */
  function CloseBlock(q: Quote, block: string, out: string): State
  {
    if block == [] then State(q, Plain, out)
    else
      var c := block[|block| - 1];
      if Delimiter(c) then Delimit(q, c, out + StripLast(block))
      else if c == '\n' then State(q, Plain, out + StripLast(block))
      else State(q, Plain, out + block)
  }

  // ---- one block, one mode ------------------------------------------------

  /** `Meaning` of the text `b + rest` depends on the last character of the text
      only when `rest` is empty. */
  lemma {:induction false} Advance(vars: VarMap, s: State, b: string, rest: string)
    requires b != []
    requires rest == [] ==> Finish(Run(vars, s, b), b) == Finish(Run(vars, s, b), [])
    ensures Meaning(vars, s, b + rest) == Meaning(vars, Run(vars, s, b), rest)
  {
    RunConcat(vars, s, b, rest);
    if rest == [] { assert b + rest == b; }
  }

  lemma {:induction false} PlainBlock(vars: VarMap, q: Quote, out: string, b: string, rest: string)
    requires IsBlock(b, rest)
    ensures Meaning(vars, State(q, Plain, out), b + rest) == Meaning(vars, CloseBlock(q, b, out), rest)
  {
    var s := State(q, Plain, out);
    var body, c := StripLast(b), b[|b| - 1];
    assert b == body + [c];
    RunConcat(vars, s, body, [c]);
    RunPlain(vars, s, body);
    assert Run(vars, s, b) == Step(vars, State(q, Plain, out + body), c);
    if Delimiter(c) {
      Advance(vars, s, b, rest);
    } else {
      assert rest == [] && b + rest == b;
      assert out + body + [c] == out + b;
      assert (out + body + [c])[..|out + body + [c]| - 1] == out + body;
    }
  }

  lemma {:induction false} EscapeBlock(vars: VarMap, q: Quote, out: string, b: string, rest: string)
    requires IsBlock(b, rest)
    ensures var m := Meaning(vars, State(q, Escape, out), b + rest);
            if Delimiter(b[0]) then |b| == 1 && m == Meaning(vars, State(q, Plain, out + b), rest)
            else if b[0] == '\n' && q != Unquoted then m == Value(q, out)
            else m == Failed(BadEscape)
  {
    var s := State(q, Escape, out);
    var text := b + rest;
    assert text == [b[0]] + text[1..];
    assert Run(vars, s, text) == Run(vars, Step(vars, s, b[0]), text[1..]);
    if Delimiter(b[0]) {
      assert text[1..] == rest && b == [b[0]];
      Advance(vars, s, b, rest);
    } else {
      RunSettled(vars, Step(vars, s, b[0]), text[1..]);
    }
  }

  /** Over white space the automaton stays in `Blank`. */
  lemma {:induction false} RunBlank(vars: VarMap, s: State, text: string)
    requires s.mode.Blank? && forall i :: 0 <= i < |text| ==> IsSpace(text[i])
    ensures Run(vars, s, text) ==
            s.(mode := if text == [] then s.mode
                       else Blank(text[|text| - 1] != ' ' && text[|text| - 1] != '\t'))
    decreases |text|
  {
    if text != [] {
      RunBlank(vars, Step(vars, s, text[0]), text[1..]);
    }
  }

  /** Anything but white space after a blank, unless a comment starts there, is an error. */
  lemma {:induction false} BlankFails(vars: VarMap, s: State, text: string, k: nat)
    requires s.mode.Blank? && k < |text|
    requires forall j :: 0 <= j < k ==> IsSpace(text[j]) && !Delimiter(text[j])
    requires !IsSpace(text[k])
    requires k == 0 && text[0] == '#' ==> s.mode.mid
    ensures Run(vars, s, text) == s.(mode := Fail(UnexpectedWhitespace))
    decreases k
  {
    var s1 := Step(vars, s, text[0]);
    if k == 0 {
      RunSettled(vars, s1, text[1..]);
    } else {
      assert IsSpace(text[0]) && !Delimiter(text[0]);
      assert s1 == s.(mode := Blank(true));
      BlankFails(vars, s1, text[1..], k - 1);
    }
  }

  lemma {:induction false} BlankComment(vars: VarMap, s: State, b: string, rest: string)
    requires b != [] && b[0] == '#' && s.mode == Blank(false)
    ensures Meaning(vars, s, b + rest) == Value(s.quote, s.out)
  {
    RunSettled(vars, Step(vars, s, b[0]), (b + rest)[1..]);
  }

  lemma {:induction false} BlankSpace(vars: VarMap, s: State, b: string, rest: string)
    requires IsBlock(b, rest) && s.mode == Blank(false) && TrimStart(b) == ""
    ensures Meaning(vars, s, b + rest) == Meaning(vars, s, rest)
  {
    RunBlank(vars, s, b);
    Advance(vars, s, b, rest);
    if rest == [] {
      assert Run(vars, s, []) == s;
    }
  }

  lemma {:induction false} BlankOther(vars: VarMap, s: State, b: string, rest: string)
    requires IsBlock(b, rest) && s.mode == Blank(false) && b[0] != '#' && TrimStart(b) != ""
    ensures Meaning(vars, s, b + rest) == Failed(UnexpectedWhitespace)
  {
    hide Run, TrimStart;
    var text := b + rest;
    var k := |b| - |TrimStart(b)|;
    assert TrimStart(b)[0] == b[k] == text[k];
    forall j | 0 <= j < k ensures IsSpace(text[j]) && !Delimiter(text[j]) {
      assert text[j] == b[j] == StripLast(b)[j];
    }
    BlankFails(vars, s, text, k);
  }

  // ---- a block behind '$' -------------------------------------------------

  predicate Special(c: char) { Delimiter(c) || Brace(c) }

  lemma {:induction false} RunName(vars: VarMap, s: State, text: string)
    requires s.mode.Name? && Free(text, Special)
    ensures Run(vars, s, text) == s.(mode := Name(s.mode.acc + text))
    decreases |text|
  {
    if text == [] {
      assert s.mode.acc + text == s.mode.acc;
    } else {
      assert !Special(text[0]);
      RunName(vars, s.(mode := Name(s.mode.acc + [text[0]])), text[1..]);
      assert s.mode.acc + text == s.mode.acc + [text[0]] + text[1..];
    }
  }

  lemma {:induction false} RunTail(vars: VarMap, s: State, text: string)
    requires s.mode.Tail? && Free(text, Special)
    ensures Run(vars, s, text) == s.(out := s.out + text)
    decreases |text|
  {
    if text == [] {
      assert s.out + text == s.out;
    } else {
      assert !Special(text[0]);
      RunTail(vars, s.(out := s.out + [text[0]]), text[1..]);
      assert s.out + text == s.out + [text[0]] + text[1..];
    }
  }

  lemma {:induction false} RunCut(vars: VarMap, s: State, text: string)
    requires s.mode.Cut? && Free(text, Delimiter)
    ensures Run(vars, s, text) == s
    decreases |text|
  {
    if text != [] { RunCut(vars, s, text[1..]); }
  }

  /** Directly behind the closing brace the automaton is in `Ref`, and on one more
      character it behaves as in `Tail` with the value emitted. */
  lemma {:induction false} RunRef(vars: VarMap, q: Quote, out: string, v: string, text: string)
    requires text != []
    ensures Run(vars, State(q, Ref(v), out), text) == Run(vars, State(q, Tail, out + v), text)
  {
  }

  /** The text `b` behind a reference, up to the end of the block, without braces. */
  lemma {:induction false} TailBlock(vars: VarMap, q: Quote, out: string, v: string, b: string, rest: string)
    requires IsBlock(b, rest) && Free(b, Brace)
    ensures Meaning(vars, State(q, Ref(v), out), b + rest) == Meaning(vars, CloseBlock(q, v + b, out), rest)
  {
    hide Run;
    var t := State(q, Tail, out + v);
    RunRef(vars, q, out, v, b + rest);
    RunTailBlock(vars, q, out + v, b);
    var body, c := StripLast(b), b[|b| - 1];
    assert (v + b)[|v + b| - 1] == c && StripLast(v + b) == v + body;
    assert out + (v + body) == out + v + body;
    if Delimiter(c) {
      Advance(vars, t, b, rest);
    } else {
      assert rest == [] && b + rest == b;
      TailEnds(vars, q, out, v, b);
    }
  }

  lemma {:induction false} TailEnds(vars: VarMap, q: Quote, out: string, v: string, b: string)
    requires b != [] && !Brace(b[|b| - 1]) && !Delimiter(b[|b| - 1])
    ensures Finish(TailStep(q, b[|b| - 1], out + v + StripLast(b)), b) == Meaning(vars, CloseBlock(q, v + b, out), [])
  {
    var body, c := StripLast(b), b[|b| - 1];
    var all := out + v + body;
    assert (v + b)[|v + b| - 1] == c && StripLast(v + b) == v + body;
    assert out + (v + body) == all && out + (v + b) == all + [c];
    assert (all + [c])[..|all + [c]| - 1] == all;
  }

  lemma {:induction false} RunTailBlock(vars: VarMap, q: Quote, out: string, b: string)
    requires b != [] && Free(StripLast(b), Special)
    ensures Run(vars, State(q, Tail, out), b) == TailStep(q, b[|b| - 1], out + StripLast(b))
  {
    hide Run;
    var t := State(q, Tail, out);
    var body, c := StripLast(b), b[|b| - 1];
    assert b == body + [c] && [c][1..] == [];
    RunConcat(vars, t, body, [c]);
    RunTail(vars, t, body);
    RunFirst(vars, t.(out := out + body), [c]);
    RunFirst(vars, TailStep(q, c, out + body), []);
  }

  /** The text `b` behind a reference when a brace at `j` cuts it off. */
  lemma {:induction false} CutBlock(vars: VarMap, q: Quote, out: string, v: string, b: string, rest: string, j: nat)
    requires IsBlock(b, rest) && j < |b| && Free(b[..j], Brace) && Brace(b[j])
    ensures Meaning(vars, State(q, Ref(v), out), b + rest)
         == Meaning(vars, State(q, Plain, out + (v + b[..j + 1])), rest)
  {
    var t := State(q, Tail, out + v);
    var more := b[j + 1..];
    var o := out + (v + b[..j + 1]);
    RunRef(vars, q, out, v, b + rest);
    RunToBrace(vars, t, b, j);
    assert out + v + b[..j + 1] == o;
    RunConcat(vars, t, b[..j + 1], more);
    assert b[..j + 1] + more == b;
    CutRest(vars, State(q, Cut, o), b, more);
    Advance(vars, t, b, rest);
  }

  lemma {:induction false} RunToBrace(vars: VarMap, t: State, b: string, j: nat)
    requires t.mode.Tail? && j < |b| && Free(StripLast(b), Delimiter) && Free(b[..j], Brace) && Brace(b[j])
    ensures Run(vars, t, b[..j + 1]) == State(t.quote, Cut, t.out + b[..j + 1])
  {
    assert Free(b[..j], Special) by {
      assert forall i :: 0 <= i < j ==> b[i] == StripLast(b)[i] && b[i] == b[..j][i];
    }
    RunTail(vars, t, b[..j]);
    RunConcat(vars, t, b[..j], [b[j]]);
    assert b[..j] + [b[j]] == b[..j + 1];
    assert t.out + b[..j] + [b[j]] == t.out + b[..j + 1];
  }

  lemma {:induction false} CutRest(vars: VarMap, s: State, b: string, more: string)
    requires s.mode.Cut? && |more| < |b| && more == b[|b| - |more|..]
    requires Free(StripLast(b), Delimiter)
    ensures Run(vars, s, more) == if more != [] && Delimiter(b[|b| - 1]) then s.(mode := Plain) else s
  {
    if more != [] {
      var body, c := StripLast(more), more[|more| - 1];
      assert more == body + [c];
      assert forall i :: 0 <= i < |body| ==> body[i] == StripLast(b)[|b| - |more| + i];
      RunConcat(vars, s, body, [c]);
      RunCut(vars, s, body);
      assert Run(vars, s, [c]) == Step(vars, s, c);
    }
  }

  lemma {:induction false} PiecesHead(b: string)
    requires b != [] && b[0] == '{'
    ensures SplitInclusive(b, Brace) == ["{"] + SplitInclusive(b[1..], Brace)
  {
    assert b == [] + ['{'] + b[1..];
    SplitFirst([], '{', b[1..], Brace);
    assert [] + ['{'] == "{";
  }

  lemma {:induction false} PiecesKey(r: string, n: nat)
    requires n < |r| && Free(r[..n], Brace) && Brace(r[n])
    ensures SplitInclusive(r, Brace) == [r[..n + 1]] + SplitInclusive(r[n + 1..], Brace)
  {
    assert r == r[..n] + [r[n]] + r[n + 1..];
    SplitFirst(r[..n], r[n], r[n + 1..], Brace);
    assert r[..n] + [r[n]] == r[..n + 1];
  }

  /** How `VarSub` takes a block apart: `{`, a key, `}` and a tail cut at the next brace. */
  function TailOf(t: string): string {
    var j := Find(t, Brace);
    if j < |t| then t[..j + 1] else t
  }

  lemma {:induction false} PiecesOf(b: string, k: nat)
    requires 1 <= k < |b| && b[0] == '{' && Free(b[1..k], Brace) && Brace(b[k])
    ensures SplitInclusive(b, Brace) == ["{"] + ([b[1..k + 1]] + SplitInclusive(b[k + 1..], Brace))
  {
    PiecesHead(b);
    SliceTail(b, k);
    PiecesKey(b[1..], k - 1);
  }

  lemma SliceTail(b: string, k: nat)
    requires 1 <= k < |b|
    ensures b[1..][..k - 1] == b[1..k] && b[1..][k - 1] == b[k]
    ensures b[1..][..k] == b[1..k + 1] && b[1..][k..] == b[k + 1..]
  {
  }

  lemma {:induction false} FirstPiece(t: string)
    ensures t == [] ==> SplitInclusive(t, Brace) == [] && TailOf(t) == []
    ensures t != [] ==> SplitInclusive(t, Brace) != [] && SplitInclusive(t, Brace)[0] == TailOf(t)
  {
  }

  lemma {:induction false} VarSubClosed(b: string, vars: VarMap, k: nat)
    requires 1 <= k < |b| && b[0] == '{' && Free(b[1..k], Brace) && Brace(b[k])
    ensures VarSub(b, vars) ==
            if b[k] != '}' then Err(NoClosingBrace)
            else if b[1..k] !in vars then Err(UnknownVariable)
            else Ok(vars[b[1..k]] + TailOf(b[k + 1..]))
  {
    hide VarSub, SplitInclusive, TailOf;
    PiecesOf(b, k);
    FirstPiece(b[k + 1..]);
    VarSubPieces(b, vars, b[1..k + 1], SplitInclusive(b[k + 1..], Brace));
    assert StripLast(b[1..k + 1]) == b[1..k];
  }

  lemma {:induction false} VarSubPieces(b: string, vars: VarMap, p: string, more: seq<string>)
    requires SplitInclusive(b, Brace) == ["{"] + ([p] + more) && p != []
    ensures VarSub(b, vars) ==
            if !EndsWith(p, '}') then Err(NoClosingBrace)
            else if StripLast(p) !in vars then Err(UnknownVariable)
            else Ok(vars[StripLast(p)] + if more == [] then "" else more[0])
  {
  }

  lemma {:induction false} VarBlock(vars: VarMap, q: Quote, out: string, b: string, rest: string)
    requires IsBlock(b, rest)
    ensures var m := Meaning(vars, State(q, Dollar, out), b + rest);
            match VarSub(b, vars)
            case Err(e) => m == Failed(e)
            case Ok(got) => m == Meaning(vars, CloseBlock(q, got, out), rest)
  {
    if b[0] != '{' {
      NoBrace(vars, State(q, Dollar, out), b, rest);
    } else {
      var k := 1 + Find(b[1..], Brace);
      assert b[1..][..k - 1] == b[1..k];
      if k == |b| || b[k] != '}' {
        Unclosed(vars, State(q, Dollar, out), b, rest, k);
      } else {
        Closed(vars, q, out, b, rest, k);
      }
    }
  }

  lemma {:induction false} NoBrace(vars: VarMap, s: State, b: string, rest: string)
    requires s.mode == Dollar && b != [] && b[0] != '{'
    ensures VarSub(b, vars) == Err(NoBraces)
    ensures Meaning(vars, s, b + rest) == Failed(NoBraces)
  {
    SplitTail(b, Brace);
    RunSettled(vars, Step(vars, s, b[0]), (b + rest)[1..]);
  }

  lemma {:induction false} Unclosed(vars: VarMap, s: State, b: string, rest: string, k: nat)
    requires s.mode == Dollar && IsBlock(b, rest) && b[0] == '{'
    requires 1 <= k <= |b| && Free(b[1..k], Brace) && (k < |b| ==> b[k] == '{')
    ensures VarSub(b, vars) == Err(NoClosingBrace)
    ensures Meaning(vars, s, b + rest) == Failed(NoClosingBrace)
  {
    hide VarSub, Run;
    var r := b[1..];
    if k < |b| {
      VarSubClosed(b, vars, k);
    } else {
      assert b[1..k] == r;
      VarSubOpen(b, vars);
    }
    if r != [] {
      assert forall i :: 0 <= i < |r| - 1 ==> StripLast(r)[i] == StripLast(b)[i + 1];
    }
    assert r[..k - 1] == b[1..k];
    NameFails(vars, s.(mode := Name("")), r, rest, k - 1);
    assert b + rest == ['{'] + (r + rest);
    RunFirst(vars, s, b + rest);
    assert (b + rest)[1..] == r + rest;
  }

  lemma {:induction false} VarSubOpen(b: string, vars: VarMap)
    requires b != [] && b[0] == '{' && Free(b[1..], Brace)
    ensures VarSub(b, vars) == Err(NoClosingBrace)
  {
    PiecesHead(b);
    if b[1..] != [] { SplitLast(b[1..], Brace); }
  }

  lemma {:induction false} Closed(vars: VarMap, q: Quote, out: string, b: string, rest: string, k: nat)
    requires IsBlock(b, rest) && b[0] == '{' && 1 <= k < |b| && Free(b[1..k], Brace) && b[k] == '}'
    ensures var m := Meaning(vars, State(q, Dollar, out), b + rest);
            match VarSub(b, vars)
            case Err(e) => m == Failed(e)
            case Ok(got) => m == Meaning(vars, CloseBlock(q, got, out), rest)
  {
    var s := State(q, Dollar, out);
    VarSubClosed(b, vars, k);
    NameEnds(vars, s, b, rest, k);
    if b[1..k] !in vars {
      RunSettled(vars, s.(mode := Fail(UnknownVariable)), b[k + 1..] + rest);
    } else {
      AfterName(vars, q, out, vars[b[1..k]], b, rest, k);
    }
  }

  /** A name that reaches the end of the block or an opening brace is not closed. */
  lemma {:induction false} NameFails(vars: VarMap, s: State, b: string, rest: string, k: nat)
    requires s.mode == Name("") && k <= |b| && Free(b[..k], Brace)
    requires k < |b| ==> b[k] == '{'
    requires b == [] ==> rest == []
    requires b != [] ==> IsBlock(b, rest)
    ensures Finish(Run(vars, s, b + rest), ['{'] + (b + rest)) == Failed(NoClosingBrace)
  {
    hide Run;
    var n := if k == |b| && b != [] && Delimiter(b[k - 1]) then k - 1 else k;
    NameChars(b, k, n);
    RunName(vars, s, b[..n]);
    var s1 := s.(mode := Name(b[..n]));
    assert "" + b[..n] == b[..n];
    var more := b[n..] + rest;
    assert b[..n] + more == b + rest;
    RunConcat(vars, s, b[..n], more);
    RunFirst(vars, s1, more);
    if n < |b| {
      RunSettled(vars, Step(vars, s1, b[n]), more[1..]);
    }
  }

  lemma NameChars(b: string, k: nat, n: nat)
    requires n <= k <= |b| && Free(b[..k], Brace)
    requires b != [] ==> Free(StripLast(b), Delimiter)
    requires n == |b| ==> b == [] || !Delimiter(b[n - 1])
    ensures Free(b[..n], Special)
  {
    assert forall i :: 0 <= i < n && i < |b| - 1 ==> b[i] == StripLast(b)[i];
    assert forall i :: 0 <= i < n ==> b[..n][i] == b[..k][i];
  }

  lemma {:induction false} RunReference(vars: VarMap, s: State, key: string, more: string)
    requires s.mode == Dollar && Free(key, Special)
    ensures Run(vars, s, ['{'] + (key + (['}'] + more))) ==
            Run(vars, s.(mode := if key in vars then Ref(vars[key]) else Fail(UnknownVariable)), more)
  {
    var s1 := s.(mode := Name(""));
    var close := ['}'] + more;
    assert (['{'] + (key + close))[1..] == key + close;
    RunConcat(vars, s1, key, close);
    RunName(vars, s1, key);
    assert "" + key == key;
    assert close[1..] == more;
  }

  lemma {:induction false} NameEnds(vars: VarMap, s: State, b: string, rest: string, k: nat)
    requires IsBlock(b, rest) && s.mode == Dollar
    requires 1 <= k < |b| && b[0] == '{' && b[k] == '}' && Free(b[1..k], Brace)
    ensures var key := b[1..k];
            Run(vars, s, b + rest) ==
            Run(vars, s.(mode := if key in vars then Ref(vars[key]) else Fail(UnknownVariable)), b[k + 1..] + rest)
  {
    var key := b[1..k];
    assert Free(key, Special) by {
      assert forall i :: 0 <= i < |key| ==> key[i] == StripLast(b)[i + 1];
    }
    RunReference(vars, s, key, b[k + 1..] + rest);
    ReferenceText(b, rest, k);
  }

  lemma ReferenceText(b: string, rest: string, k: nat)
    requires 1 <= k < |b| && b[0] == '{' && b[k] == '}'
    ensures b + rest == ['{'] + (b[1..k] + (['}'] + (b[k + 1..] + rest)))
  {
    assert b == ['{'] + (b[1..k] + (['}'] + b[k + 1..]));
  }

  lemma {:induction false} AfterName(vars: VarMap, q: Quote, out: string, v: string, b: string, rest: string, k: nat)
    requires IsBlock(b, rest) && k < |b| && b[k] == '}'
    ensures Finish(Run(vars, State(q, Ref(v), out), b[k + 1..] + rest), b + rest)
         == Meaning(vars, CloseBlock(q, v + TailOf(b[k + 1..]), out), rest)
  {
    var t := b[k + 1..];
    if t == [] {
      assert rest == [] && t + rest == [] && v + t == v;
      RefEnds(vars, q, out, v, b + rest);
    } else {
      assert forall i :: 0 <= i < |t| - 1 ==> StripLast(t)[i] == StripLast(b)[k + 1 + i];
      assert IsBlock(t, rest);
      FinishLast(Run(vars, State(q, Ref(v), out), t + rest), b + rest, t + rest);
      AfterNameText(vars, q, out, v, t, rest);
    }
  }

  lemma {:induction false} AfterNameText(vars: VarMap, q: Quote, out: string, v: string, t: string, rest: string)
    requires IsBlock(t, rest)
    ensures Meaning(vars, State(q, Ref(v), out), t + rest)
         == Meaning(vars, CloseBlock(q, v + TailOf(t), out), rest)
  {
    var j := Find(t, Brace);
    if j < |t| {
      CutBlock(vars, q, out, v, t, rest, j);
      CloseAtBrace(q, v + t[..j], t[j], out);
      assert v + t[..j + 1] == v + t[..j] + [t[j]];
    } else {
      TailBlock(vars, q, out, v, t, rest);
    }
  }

  lemma CloseAtBrace(q: Quote, a: string, c: char, out: string)
    requires Brace(c)
    ensures CloseBlock(q, a + [c], out) == State(q, Plain, out + (a + [c]))
  {
  }

  lemma {:induction false} RefEnds(vars: VarMap, q: Quote, out: string, v: string, text: string)
    ensures Finish(State(q, Ref(v), out), text) == Meaning(vars, CloseBlock(q, v, out), [])
  {
    assert out + v == out + v;
  }

  lemma FinishLast(s: State, a: string, b: string)
    requires a != [] && b != [] && a[|a| - 1] == b[|b| - 1]
    ensures Finish(s, a) == Finish(s, b)
  {
  }

  // ---- kv_process ---------------------------------------------------------

  predicate BadKeyChar(c: char) {
    || c == '\\' || c == '/' || c == '\"' || c == '\'' || c == ' ' || c == '\t'
    || c == '$' || c == '#' || c == '.' || c == '`'
  }

  /** The buffer kept for the next physical line while a quote is open: the line
      without its trailing white space, plus one blank; in double quotes a final
      backslash goes too, and the blank with it unless white space preceded it. */
  function Continued(trimmed: string, q: Quote): string
  {
    var ml := TrimEnd(trimmed);
    if EndsWith(ml, '\\') && q == Double then
      var cut := StripLast(ml);
      TrimEnd(cut) + if |TrimEnd(cut)| == |cut| then "" else " "
    else ml + " "
  }

  datatype LineResult =
    | Nothing
    | Pair(key: string, value: string)
    | More(buffer: string)
    | Bad(error: Error)

  /** The meaning of one buffered line. */
  function LineMeaning(line: string, vars: VarMap): LineResult
  {
    var trimmed := TrimStart(line);
    if trimmed == "" || trimmed[0] == '#' then Nothing
    else
      var i := Find(trimmed, EqualsSign);
      if i == |trimmed| then Bad(MissingEquals)
      else
        var key, val := trimmed[..i], trimmed[i + 1..];
        if key == "" then Bad(EmptyKey)
        else if !Free(key, BadKeyChar) then Bad(InvalidKey)
        else
          match Meaning(vars, START, val)
          case Failed(e) => Bad(e)
          case Value(q, v) => if q != Unquoted then More(Continued(trimmed, q)) else Pair(key, v)
  }

  /** The loop over the blocks of a value, with its three flags. */
  method ScanValue(val: string, vars: VarMap) returns (r: Outcome)
    ensures r == Meaning(vars, START, val)
  {
    hide Meaning, VarSub, SplitInclusive, TrimStart, CloseBlock;
    var blocks := SplitInclusive(val, Delimiter);
    var inquote := Unquoted;
    var escapeNext, commentNext, varNext := false, false, false;
    var out := "";
    var i := 0;
    ghost var rest := val;
    while i < |blocks|
      invariant i <= |blocks|
      invariant blocks[i..] == SplitInclusive(rest, Delimiter)
      invariant !(escapeNext && commentNext) && !(escapeNext && varNext) && !(commentNext && varNext)
      invariant commentNext ==> inquote == Unquoted
      invariant Meaning(vars, State(inquote, ModeOf(escapeNext, commentNext, varNext), out), rest)
             == Meaning(vars, START, val)
    {
      var block := blocks[i];
      ghost var text := rest;
      NoBlocks(text);
      SplitTail(text, Delimiter);
      rest := text[|block|..];
      assert text == block + rest && IsBlock(block, rest);
      assert blocks[i + 1..] == blocks[i..][1..];
      i := i + 1;

      if escapeNext {
        EscapeBlock(vars, inquote, out, block, rest);
        if Delimiter(block[0]) {
        } else if block[0] == '\n' && inquote != Unquoted {
          return Value(inquote, out);
        } else {
          return Failed(BadEscape);
        }
        escapeNext := false;
        out := out + block;
        if |block| != 1 {
          return Failed(SplitBoundary);
        }
        continue;
      }

      if commentNext {
        assert inquote == Unquoted;
        ghost var s := State(inquote, Blank(false), out);
        if block[0] == '#' {
          BlankComment(vars, s, block, rest);
          return Value(inquote, out);
        } else if TrimStart(block) == "" {
          BlankSpace(vars, s, block, rest);
          continue;
        } else {
          BlankOther(vars, s, block, rest);
          return Failed(UnexpectedWhitespace);
        }
      }

      if varNext {
        VarBlock(vars, inquote, out, block, rest);
        var got := VarSub(block, vars);
        if got.Err? {
          return Failed(got.error);
        }
        block := got.value;
        varNext := false;
      } else {
        PlainBlock(vars, inquote, out, block, rest);
      }
      inquote, escapeNext, commentNext, varNext, out := CloseOpenBlock(inquote, block, out);
    }
    NoBlocks(rest);
    NothingLeft(vars, inquote, ModeOf(escapeNext, commentNext, varNext), out);
    return Value(inquote, out);
  }

  lemma NoBlocks(s: string)
    ensures SplitInclusive(s, Delimiter) == [] <==> s == []
  {
  }

  lemma NothingLeft(vars: VarMap, q: Quote, mode: Mode, out: string)
    requires mode.Plain? || mode.Escape? || mode.Blank? || mode.Dollar?
    ensures Meaning(vars, State(q, mode, out), []) == Value(q, out)
  {
  }

  /** The chain of `ends_with` tests that closes one block. */
  method CloseOpenBlock(q: Quote, block: string, val: string)
    returns (inquote: Quote, escapeNext: bool, commentNext: bool, varNext: bool, out: string)
    ensures State(inquote, ModeOf(escapeNext, commentNext, varNext), out) == CloseBlock(q, block, val)
    ensures !(escapeNext && commentNext) && !(escapeNext && varNext) && !(commentNext && varNext)
    ensures commentNext ==> inquote == Unquoted
  {
    inquote, escapeNext, commentNext, varNext, out := q, false, false, false, val;
    if EndsWith(block, '\\') && inquote != Single {
      escapeNext := true;
      out := out + StripLast(block);
    } else if EndsWith(block, '\"') {
      if inquote == Single {
        out := out + block;
      } else {
        inquote := if inquote == Double then Unquoted else Double;
        out := out + StripLast(block);
      }
    } else if EndsWith(block, '\'') {
      if inquote == Double {
        out := out + block;
      } else {
        inquote := if inquote == Single then Unquoted else Single;
        out := out + StripLast(block);
      }
    } else if (EndsWith(block, ' ') || EndsWith(block, '\t')) && inquote == Unquoted {
      commentNext := true;
      out := out + StripLast(block);
    } else if EndsWith(block, '$') && inquote != Single {
      varNext := true;
      out := out + StripLast(block);
    } else if EndsWith(block, '\n') {
      out := out + StripLast(block);
    } else {
      out := out + block;
    }
    if block != [] {
      assert block == StripLast(block) + [block[|block| - 1]];
      assert val + block == val + StripLast(block) + [block[|block| - 1]];
    }
  }

  method KeepLine(trimmed: string, inquote: Quote) returns (buffer: string)
    ensures buffer == Continued(trimmed, inquote)
  {
    var pushSpace := " ";
    var ml := TrimEnd(trimmed);
    if EndsWith(ml, '\\') && inquote == Double {
      ml := StripLast(ml);
      var l := |ml|;
      ml := TrimEnd(ml);
      if l == |ml| {
        pushSpace := "";
      }
    }
    buffer := ml + pushSpace;
  }

  /** `kv_process`: `buffer` is what is left in the line buffer afterwards. */
  method ProcessLine(line: string, vars: VarMap) returns (r: LineResult, buffer: string)
    ensures r == LineMeaning(line, vars)
    ensures buffer == match r case Nothing => "" case Pair(_, _) => "" case More(b) => b case Bad(_) => line
  {
    hide Meaning, TrimStart, Continued, Free, Find;
    var trimmed := TrimStart(line);
    if trimmed == "" || trimmed[0] == '#' {
      return Nothing, "";
    }
    var i := Find(trimmed, EqualsSign);
    if i == |trimmed| {
      return Bad(MissingEquals), line;
    }
    var key, val := trimmed[..i], trimmed[i + 1..];
    if key == "" {
      return Bad(EmptyKey), line;
    }
    if !Free(key, BadKeyChar) {
      return Bad(InvalidKey), line;
    }
    var scanned := ScanValue(val, vars);
    if scanned.Failed? {
      return Bad(scanned.error), line;
    }
    if scanned.quote != Unquoted {
      buffer := KeepLine(trimmed, scanned.quote);
      return More(buffer), buffer;
    }
    return Pair(key, scanned.text), "";
  }
}
