/** What a `${NAME}` reference adds to a value: when exactly the stored value and the
    text behind it, and two lines for which it is something else. */
module KvReference {
  import opened Strings
  import opened KvAutomaton
  import opened KvProcess
  import opened KvQuoting

  /** No brace but at the end: text behind a reference is cut behind its first. */
  predicate BraceAtEnd(tail: string) { forall i :: 0 <= i < |tail| - 1 ==> !Brace(tail[i]) }

  /** Not taken apart again: neither a delimiter nor a line end closes the value. */
  predicate EndsPlain(value: string) {
    value == "" || (!Delimiter(value[|value| - 1]) && value[|value| - 1] != '\n')
  }

  lemma {:induction false} RunBehind(vars: VarMap, q: Quote, out: string, text: string)
    requires Free(text, Delimiter)
    ensures var j := Find(text, Brace);
            Run(vars, State(q, Tail, out), text) ==
            if j == |text| then State(q, Tail, out + text) else State(q, Cut, out + text[..j + 1])
  {
    hide Run, Find;
    var t := State(q, Tail, out);
    var j := Find(text, Brace);
    if j == |text| {
      assert Free(text, Special);
      RunTail(vars, t, text);
    } else {
      assert Free(text[..j], Brace);
      RunToBrace(vars, t, text, j);
      assert text == text[..j + 1] + text[j + 1..];
      RunConcat(vars, t, text[..j + 1], text[j + 1..]);
      RunCut(vars, Run(vars, t, text[..j + 1]), text[j + 1..]);
    }
  }

  /** The value text behind the closing brace, up to the end of the input. */
  lemma {:induction false} BehindReference(vars: VarMap, value: string, tail: string, eol: string)
    requires Free(tail, Delimiter) && Free(tail, Newline) && (eol == "" || eol == "\n") && tail + eol != ""
    ensures var j := Find(tail, Brace);
            Finish(Run(vars, State(Unquoted, Ref(value), ""), tail + eol), tail + eol) ==
            Value(Unquoted, if j == |tail| then value + tail else value + tail[..j + 1])
  {
    hide Run, Find;
    var text := tail + eol;
    assert "" + value == value;
    RunRef(vars, Unquoted, "", value, text);
    RunBehind(vars, Unquoted, value, text);
    var j := Find(tail, Brace);
    if j == |tail| {
      FindIsFirst(text, Brace, |text|);
      assert eol == "\n" ==> (value + text)[..|value + text| - 1] == value + tail;
    } else {
      FindIsFirst(text, Brace, j);
      assert text[..j + 1] == tail[..j + 1];
    }
  }

  lemma {:induction false} ReferenceLine(vars: VarMap, key: string, name: string, more: string)
    requires ValidKey(key) && Free(name, Special) && name in vars
    ensures var val := "${" + name + "}" + more;
            var m := Finish(Run(vars, State(Unquoted, Ref(vars[name]), ""), more), val);
            LineMeaning(key + "=" + val, vars) ==
            match m
            case Failed(e) => Bad(e)
            case Value(q, v) => if q != Unquoted then More(Continued(key + "=" + val, q)) else Pair(key, v)
  {
    hide Run, LineMeaning, Continued, Finish;
    var ref := "${" + name + "}";
    LineSplits(key, ref + more, vars);
    RunConcat(vars, START, ref, more);
    ReferenceKnown(vars, START, name);
  }

  /** A line that ends in a reference and text behind it yields the stored value and that
      text if and only if no brace stands in the text but at its end, and, when the
      reference is the last thing in the input, the value does not end in a delimiter
      or a line end. */
  lemma {:induction false} ReferenceExact(vars: VarMap, key: string, name: string, tail: string, eol: string)
    requires ValidKey(key) && Free(name, Special) && name in vars
    requires Free(tail, Delimiter) && Free(tail, Newline) && (eol == "" || eol == "\n")
    ensures LineMeaning(key + "=" + ("${" + name + "}" + (tail + eol)), vars) == Pair(key, vars[name] + tail)
            <==> BraceAtEnd(tail) && (tail == "" && eol == "" ==> EndsPlain(vars[name]))
  {
    hide Run, LineMeaning, Continued, Find;
    var value, more := vars[name], tail + eol;
    var val := "${" + name + "}" + more;
    ReferenceLine(vars, key, name, more);
    var s := State(Unquoted, Ref(value), "");
    if more == "" {
      RunFirst(vars, s, more);
      ValueExact(value, val);
    } else {
      FinishLast(Run(vars, s, more), val, more);
      BehindReference(vars, value, tail, eol);
      var j := Find(tail, Brace);
      assert BraceAtEnd(tail) <==> j + 1 >= |tail|;
      assert j + 1 < |tail| ==> |value + tail[..j + 1]| != |value + tail|;
    }
  }

  lemma {:induction false} ValueExact(value: string, text: string)
    ensures Finish(State(Unquoted, Ref(value), ""), text) == Value(Unquoted, value) <==> EndsPlain(value)
  {
    if value != "" {
      var body := "" + value[..|value| - 1];
      assert |body| < |value|;
      assert "" + value == value;
    }
  }

  // ---- a line for each way to fail ----------------------------------------

  /** `K=${A}b}c` loses what stands behind the brace. */
  lemma {:induction false} TailIsCut(vars: VarMap)
    requires "A" in vars && vars["A"] == "x"
    ensures LineMeaning("K=${A}b}c", vars) == Pair("K", "xb}")
  {
    hide Run, LineMeaning, Find;
    var more := "b}c";
    var val := "${" + "A" + "}" + more;
    assert "K=${A}b}c" == "K" + "=" + val;
    ReferenceLine(vars, "K", "A", more);
    assert more + "" == more;
    FindIsFirst(more, Brace, 1);
    BehindReference(vars, "x", more, "");
    FinishLast(Run(vars, State(Unquoted, Ref("x"), ""), more), val, more);
    assert more[..2] == "b}" && "x" + "b}" == "xb}";
  }

  /** `K=${A}` at the end of the input opens a quote if the value of A ends in one. */
  lemma {:induction false} ValueOpensQuote(vars: VarMap)
    requires "A" in vars && vars["A"] == "x\""
    ensures LineMeaning("K=${A}", vars).More?
  {
    hide LineMeaning, Continued;
    assert "K=${A}" == "K" + "=" + ("${" + "A" + "}" + "");
    ReferenceLine(vars, "K", "A", "");
  }
}
