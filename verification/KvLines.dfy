/** Lines of a configuration file that assign nothing: comments, blank lines and lines
    with a bad key, told by their characters. */
module KvLines {
  import opened Strings
  import opened KvAutomaton
  import opened KvProcess
  import opened KvQuoting
  import opened KvMultiline
  import opened KvConf

  lemma {:induction false} TrimStartIs(blanks: string, text: string)
    requires AllSpace(blanks) && (text == "" || !IsSpace(text[0]))
    ensures TrimStart(blanks + text) == text
    decreases |blanks|
  {
    if blanks == "" {
      assert blanks + text == text;
    } else {
      assert (blanks + text)[1..] == blanks[1..] + text;
      TrimStartIs(blanks[1..], text);
    }
  }

  /** A line of white space, or with `#` as its first other character, assigns nothing
      and cannot fail, whatever stands behind the `#`. */
  lemma {:induction false} NothingOnLine(blanks: string, text: string, vars: VarMap)
    requires AllSpace(blanks) && (text == "" || text[0] == '#')
    ensures LineMeaning(blanks + text, vars) == Nothing
  {
    hide Meaning, TrimStart;
    TrimStartIs(blanks, text);
  }

  /** Comments and blank lines can stand anywhere between whole lines. */
  lemma {:induction false} CommentSkipped(blanks: string, text: string, rest: string, vars: VarMap)
    requires AllSpace(blanks) && Free(blanks, Newline) && |blanks| + 1 + |text| < CONF_LINE_MAX && Free(text, Newline)
    ensures FileMeaning(blanks + ("#" + text) + "\n" + rest, "", vars) == FileMeaning(rest, "", vars)
    ensures FileMeaning(blanks + "\n" + rest, "", vars) == FileMeaning(rest, "", vars)
  {
    hide LineMeaning, FileMeaning;
    var line := blanks + ("#" + text);
    assert "" + (line + "\n") == blanks + ("#" + text + "\n");
    OneLine(line, rest, "", vars);
    NothingOnLine(blanks, "#" + text + "\n", vars);
    assert "" + (blanks + "\n") == (blanks + "\n") + "";
    OneLine(blanks, rest, "", vars);
    NothingOnLine(blanks + "\n", "", vars);
  }

  /** The characters no key may hold. */
  predicate Forbidden(c: char) { c in "\\/\"\' \t$#.`" }

  lemma ForbiddenIs(c: char)
    ensures Forbidden(c) <==> BadKeyChar(c)
  {
    var s := "\\/\"\' \t$#.`";
    assert s[0] == '\\' && s[1] == '/' && s[2] == '\"' && s[3] == '\'' && s[4] == ' ';
    assert s[5] == '\t' && s[6] == '$' && s[7] == '#' && s[8] == '.' && s[9] == '`';
  }

  /** A line with text that is no comment and no `=` is refused. */
  lemma {:induction false} EqualsNeeded(blanks: string, text: string, vars: VarMap)
    requires AllSpace(blanks) && text != "" && !IsSpace(text[0]) && text[0] != '#' && '=' !in text
    ensures LineMeaning(blanks + text, vars) == Bad(MissingEquals)
  {
    hide Meaning, TrimStart;
    TrimStartIs(blanks, text);
    FindIsFirst(text, EqualsSign, |text|);
  }

  /** The key is everything up to the first `=`. It is refused if and only if it is empty
      or holds a forbidden character; otherwise the line is the value behind it. */
  lemma {:induction false} KeyDecides(blanks: string, key: string, val: string, vars: VarMap)
    requires AllSpace(blanks) && '=' !in key && (key != "" ==> !IsSpace(key[0]) && key[0] != '#')
    ensures LineMeaning(blanks + (key + "=" + val), vars) ==
            if key == "" then Bad(EmptyKey)
            else if exists i :: 0 <= i < |key| && Forbidden(key[i]) then Bad(InvalidKey)
            else match Meaning(vars, START, val)
                 case Failed(e) => Bad(e)
                 case Value(q, v) => if q != Unquoted then More(Continued(key + "=" + val, q)) else Pair(key, v)
  {
    hide Meaning, TrimStart, Continued, Forbidden, BadKeyChar;
    var text := key + "=" + val;
    TrimStartIs(blanks, text);
    FindIsFirst(text, EqualsSign, |key|);
    assert text[..|key|] == key && text[|key| + 1..] == val;
    forall i | 0 <= i < |key| ensures Forbidden(key[i]) <==> BadKeyChar(key[i]) { ForbiddenIs(key[i]); }
    assert Free(key, BadKeyChar) <==> !exists i :: 0 <= i < |key| && Forbidden(key[i]);
  }

  /** A file fails at the first line with a bad key, with the map before it. */
  lemma {:induction false} BadKeyFails(line: string, rest: string, vars: VarMap)
    requires Free(line, Newline) && |line| < CONF_LINE_MAX && LineMeaning(line + "\n", vars).Bad?
    ensures FileMeaning(line + "\n" + rest, "", vars) == Failure(BadLine(LineMeaning(line + "\n", vars).error), vars)
  {
    hide LineMeaning, FileMeaning;
    assert "" + (line + "\n") == line + "\n";
    OneLine(line, rest, "", vars);
  }

  /** A physical line of more than 102400 bytes, line end included, fails the file. */
  lemma {:induction false} LineTooLong(line: string, rest: string, buffer: string, vars: VarMap)
    requires Free(line, Newline) && |line| + 1 > 102400
    ensures FileMeaning(line + "\n" + rest, buffer, vars) == Failure(TooLong, vars)
  {
    hide LineMeaning;
    var text := line + "\n" + rest;
    FindIsFirst(text, Newline, |line|);
  }

  // ---- behind a value -----------------------------------------------------

  predicate IsBlanks(s: string) { forall i :: 0 <= i < |s| ==> s[i] == ' ' || s[i] == '\t' }

  /** Blanks behind a value lead to the state in which only a comment may follow. */
  lemma {:induction false} RunBlanks(vars: VarMap, out: string, blanks: string)
    requires blanks != "" && IsBlanks(blanks)
    ensures Run(vars, State(Unquoted, Plain, out), blanks) == State(Unquoted, Blank(false), out)
  {
    hide Run;
    var s := State(Unquoted, Blank(false), out);
    RunFirst(vars, State(Unquoted, Plain, out), blanks);
    if |blanks| > 1 {
      KvProcess.RunBlank(vars, s, blanks[1..]);
    } else {
      RunFirst(vars, s, blanks[1..]);
    }
  }

  lemma {:induction false} BehindValue(vars: VarMap, style: Style, key: string, v: string, blanks: string, more: string)
    requires ValidKey(key) && Writable(style, v) && blanks != "" && IsBlanks(blanks)
    ensures LineMeaning(key + "=" + (Quoted(style, v) + blanks + more), vars) ==
            match Finish(Run(vars, State(Unquoted, Blank(false), v), more), Quoted(style, v) + blanks + more)
            case Failed(e) => Bad(e)
            case Value(q, x) => if q != Unquoted then More(Continued(key + "=" + (Quoted(style, v) + blanks + more), q)) else Pair(key, x)
  {
    hide Run, LineMeaning, Continued, Finish, Quoted;
    var val := Quoted(style, v) + blanks + more;
    LineSplits(key, val, vars);
    RunConcat(vars, START, Quoted(style, v) + blanks, more);
    RunConcat(vars, START, Quoted(style, v), blanks);
    RunQuoted(vars, style, v);
    RunBlanks(vars, v, blanks);
  }

  /** Blanks behind a value are ignored, and so is a comment behind them. */
  lemma {:induction false} TrailingComment(vars: VarMap, style: Style, key: string, v: string, blanks: string, text: string)
    requires ValidKey(key) && Writable(style, v) && blanks != "" && IsBlanks(blanks) && (text == "" || text[0] == '#')
    ensures LineMeaning(key + "=" + (Quoted(style, v) + blanks + text), vars) == Pair(key, v)
  {
    hide Run, LineMeaning, Continued, Quoted;
    BehindValue(vars, style, key, v, blanks, text);
    var s := State(Unquoted, Blank(false), v);
    RunFirst(vars, s, text);
    if text != "" { RunSettled(vars, s.(mode := Stop), text[1..]); }
  }

  /** Anything else behind blanks is refused: a line assigns one value. */
  lemma {:induction false} TrailingText(vars: VarMap, style: Style, key: string, v: string, blanks: string, text: string)
    requires ValidKey(key) && Writable(style, v) && blanks != "" && IsBlanks(blanks)
    requires text != "" && text[0] != '#' && !IsSpace(text[0])
    ensures LineMeaning(key + "=" + (Quoted(style, v) + blanks + text), vars) == Bad(UnexpectedWhitespace)
  {
    hide Run, LineMeaning, Continued, Quoted;
    BehindValue(vars, style, key, v, blanks, text);
    var s := State(Unquoted, Blank(false), v);
    RunFirst(vars, s, text);
    RunSettled(vars, s.(mode := Fail(UnexpectedWhitespace)), text[1..]);
  }

  /** A backslash outside quotes escapes the six delimiters and nothing else. */
  lemma {:induction false} BadEscapeRefused(vars: VarMap, key: string, v: string, c: char, more: string)
    requires ValidKey(key) && Writable(Bare, v) && c !in "\\\"\' \t$"
    ensures LineMeaning(key + "=" + (Quoted(Bare, v) + (['\\', c] + more)), vars) == Bad(BadEscape)
  {
    hide Run, LineMeaning, Continued, Quoted;
    var rest := ['\\', c] + more;
    LineSplits(key, Quoted(Bare, v) + rest, vars);
    RunConcat(vars, START, Quoted(Bare, v), rest);
    RunQuoted(vars, Bare, v);
    NotDelimiter(c);
    var s := State(Unquoted, Plain, v);
    RunFirst(vars, s, rest);
    assert rest[1..] == [c] + more && ([c] + more)[1..] == more;
    RunFirst(vars, s.(mode := Escape), [c] + more);
    RunSettled(vars, s.(mode := Fail(BadEscape)), more);
  }

  lemma NotDelimiter(c: char)
    requires c !in "\\\"\' \t$"
    ensures !Delimiter(c)
  {
    var s := "\\\"\' \t$";
    assert s[0] == '\\' && s[1] == '\"' && s[2] == '\'' && s[3] == ' ' && s[4] == '\t' && s[5] == '$';
  }
}
