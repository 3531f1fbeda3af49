/** Whole configuration files: `kv_read_line` and `kv_conf_process_append` of
    src/kv-conf/src/lib.rs, and what holds of every file. */
module KvConf {
  import opened Strings
  import opened KvAutomaton
  import opened KvProcess
  import opened KvQuoting
  import opened KvMultiline

  const CONF_LINE_MAX := 1024 * 100

  datatype FileError = UnexpectedEof | TooLong | BadLine(error: Error)

  /** The map is updated in place, so a failure keeps what was stored before it. */
  datatype FileResult = Done(vars: VarMap) | Failure(error: FileError, vars: VarMap)

  /** `read_line`: the next physical line, with its line end if it has one. */
  function FirstLine(text: string): (line: string)
    ensures |line| <= |text| && line == text[..|line|]
    ensures text != [] ==> line != [] && Free(line[..|line| - 1], Newline)
    ensures line == text || (line != [] && line[|line| - 1] == '\n')
  {
    var i := Find(text, Newline);
    if i == |text| then text else text[..i + 1]
  }

  /** Where reading lines has led: to a failure, or to a buffer, which is not empty
      inside an open quote, and a map. */
  datatype Scanned = Stops(error: FileError, vars: VarMap) | Leaves(buffer: string, vars: VarMap)

  function ReadLine(buffer: string, line: string, vars: VarMap): Scanned {
    if |line| > CONF_LINE_MAX then Stops(TooLong, vars)
    else
      match LineMeaning(buffer + line, vars)
      case Bad(e) => Stops(BadLine(e), vars)
      case Nothing => Leaves("", vars)
      case Pair(k, v) => Leaves("", vars[k := v])
      case More(b) => Leaves(b, vars)
  }

  /** The meaning of the rest of a file, with `buffer` kept from an open quote. */
  function FileMeaning(text: string, buffer: string, vars: VarMap): FileResult
    decreases |text|
  {
    if text == [] then
      if buffer != [] then Failure(UnexpectedEof, vars) else Done(vars)
    else
      var line := FirstLine(text);
      match ReadLine(buffer, line, vars)
      case Stops(e, v) => Failure(e, v)
      case Leaves(b, v) => FileMeaning(text[|line|..], b, v)
  }

  /** `kv_conf_process_append`. */
  method ProcessAppend(text: string, map0: VarMap) returns (r: FileResult)
    ensures r == FileMeaning(text, "", map0)
  {
    hide LineMeaning;
    var vars, buffer, pos := map0, "", 0;
    while true
      invariant pos <= |text|
      invariant FileMeaning(text[pos..], buffer, vars) == FileMeaning(text, "", map0)
      decreases |text| - pos
    {
      var rest := text[pos..];
      var line := FirstLine(rest);
      if |line| == 0 && buffer != "" {
        return Failure(UnexpectedEof, vars);
      } else if |line| > CONF_LINE_MAX {
        return Failure(TooLong, vars);
      }
      if |line| == 0 {
        break;
      }
      pos := pos + |line|;
      assert text[pos..] == rest[|line|..];
      var res;
      res, buffer := ProcessLine(buffer + line, vars);
      match res {
        case Bad(e) => return Failure(BadLine(e), vars);
        case Pair(k, v) => vars := vars[k := v];
        case Nothing =>
        case More(_) =>
      }
    }
    return Done(vars);
  }

  // ---- composition --------------------------------------------------------

  predicate Complete(text: string) { text == [] || text[|text| - 1] == '\n' }

  lemma {:induction false} FirstLineStable(a: string, b: string)
    requires a != [] && Complete(a)
    ensures FirstLine(a + b) == FirstLine(a)
    ensures (a + b)[|FirstLine(a)|..] == a[|FirstLine(a)|..] + b
    ensures Complete(a[|FirstLine(a)|..])
  {
    var i := Find(a, Newline);
    if i == |a| { assert Newline(a[|a| - 1]); }
    FindIsFirst(a + b, Newline, i);
  }

  /** Reading all lines of a part of a file. */
  function Scan(text: string, buffer: string, vars: VarMap): Scanned
    decreases |text|
  {
    if text == [] then Leaves(buffer, vars)
    else
      var line := FirstLine(text);
      match ReadLine(buffer, line, vars)
      case Stops(e, v) => Stops(e, v)
      case Leaves(b, v) => Scan(text[|line|..], b, v)
  }

  /** Files compose: behind a part `a` of whole lines, the rest of the file is read
      with the map, and inside the open quote if there is one, that `a` leads to; a
      failure in `a` is the failure of the whole. */
  lemma {:induction false} FilesCompose(a: string, b: string, buffer: string, vars: VarMap)
    requires Complete(a)
    ensures FileMeaning(a + b, buffer, vars) ==
            match Scan(a, buffer, vars)
            case Stops(e, v) => Failure(e, v)
            case Leaves(kept, v) => FileMeaning(b, kept, v)
    decreases |a|
  {
    hide ReadLine, FirstLine;
    if a == [] {
      assert a + b == b;
    } else {
      FirstLineStable(a, b);
      var line := FirstLine(a);
      match ReadLine(buffer, line, vars) {
        case Stops(_, _) =>
        case Leaves(kept, v) => FilesCompose(a[|line|..], b, kept, v);
      }
    }
  }

  /** How any text ends: it is read without an error if and only if every line is and
      no quote is open behind the last one, however many lines ago it was opened. An
      open quote fails the whole run, with the map of the lines before it. */
  lemma {:induction false} OpenQuoteFails(text: string, buffer: string, vars: VarMap)
    ensures FileMeaning(text, buffer, vars) ==
            match Scan(text, buffer, vars)
            case Stops(e, v) => Failure(e, v)
            case Leaves(kept, v) => if kept != [] then Failure(UnexpectedEof, v) else Done(v)
    decreases |text|
  {
    hide ReadLine, FirstLine;
    if text != [] {
      var line := FirstLine(text);
      match ReadLine(buffer, line, vars) {
        case Stops(_, _) =>
        case Leaves(kept, v) => OpenQuoteFails(text[|line|..], kept, v);
      }
    }
  }

  /** The last line decides: behind any text of whole lines, with whatever quote is
      open behind them, an open quote fails the run, and every other line ends it. */
  lemma {:induction false} LastLineDecides(a: string, line: string, buffer: string, vars: VarMap)
    requires Complete(a) && line != [] && Free(StripLast(line), Newline) && |line| <= CONF_LINE_MAX
    requires Scan(a, buffer, vars).Leaves?
    ensures var v := Scan(a, buffer, vars).vars;
            FileMeaning(a + line, buffer, vars) ==
            match LineMeaning(Scan(a, buffer, vars).buffer + line, v)
            case Bad(e) => Failure(BadLine(e), v)
            case Nothing => Done(v)
            case Pair(k, x) => Done(v[k := x])
            case More(_) => Failure(UnexpectedEof, v)
  {
    hide LineMeaning, Scan, FirstLine;
    FilesCompose(a, line, buffer, vars);
    OnlyLine(line);
    var b, v := Scan(a, buffer, vars).buffer, Scan(a, buffer, vars).vars;
    assert line[|line|..] == [];
    if LineMeaning(b + line, v).More? { ContinuedKeeps(b + line, v); }
  }

  lemma OnlyLine(line: string)
    requires line != [] && Free(StripLast(line), Newline)
    ensures FirstLine(line) == line
  {
    FindIsFirst(line, Newline, if line[|line| - 1] == '\n' then |line| - 1 else |line|);
  }

  /** One physical line ending in a line end. */
  lemma {:induction false} OneLine(line: string, rest: string, buffer: string, vars: VarMap)
    requires Free(line, Newline) && |line| < CONF_LINE_MAX
    ensures FileMeaning(line + "\n" + rest, buffer, vars) ==
            match LineMeaning(buffer + (line + "\n"), vars)
            case Bad(e) => Failure(BadLine(e), vars)
            case Nothing => FileMeaning(rest, "", vars)
            case Pair(k, v) => FileMeaning(rest, "", vars[k := v])
            case More(b) => FileMeaning(rest, b, vars)
  {
    hide LineMeaning;
    var text := line + "\n" + rest;
    FindIsFirst(text, Newline, |line|);
    assert text[..|line| + 1] == line + "\n";
    assert text[|line| + 1..] == rest;
  }

  // ---- writing a whole file -----------------------------------------------

  datatype Assignment = Assignment(key: string, value: string, style: Style)

  predicate Writes(a: Assignment) {
    && ValidKey(a.key) && Free(a.key, Newline) && Writable(a.style, a.value)
    && |a.key| + 1 + |Quoted(a.style, a.value)| < CONF_LINE_MAX
  }

  function Render(assignments: seq<Assignment>): string {
    if assignments == [] then []
    else
      var a := assignments[0];
      (a.key + "=" + Quoted(a.style, a.value)) + "\n" + Render(assignments[1..])
  }

  function Assign(assignments: seq<Assignment>, vars: VarMap): VarMap {
    if assignments == [] then vars
    else Assign(assignments[1..], vars[assignments[0].key := assignments[0].value])
  }

  /** Whole-file round trip: a file that writes any list of assignments, each in
      any quoting style, reads back as those assignments in order, so the last
      one to a key wins; whatever follows is read with that map. */
  lemma {:induction false} FileRoundTrip(assignments: seq<Assignment>, rest: string, vars: VarMap)
    requires forall i :: 0 <= i < |assignments| ==> Writes(assignments[i])
    ensures FileMeaning(Render(assignments) + rest, "", vars) == FileMeaning(rest, "", Assign(assignments, vars))
    decreases |assignments|
  {
    hide LineMeaning, FileMeaning, Quoted;
    if assignments == [] {
      assert Render(assignments) + rest == rest;
    } else {
      var a, more := assignments[0], assignments[1..];
      var line := a.key + "=" + Quoted(a.style, a.value);
      assert Render(assignments) + rest == line + "\n" + (Render(more) + rest);
      NoLineEnd(a.style, a.value);
      OneLine(line, Render(more) + rest, "", vars);
      assert "" + (line + "\n") == line + "\n";
      QuotedRoundTrip(vars, a.style, a.key, a.value, "\n");
      FileRoundTrip(more, rest, vars[a.key := a.value]);
    }
  }
}
