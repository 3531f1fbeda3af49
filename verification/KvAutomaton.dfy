/** The quoting rules of the configuration language as a character-by-character
    automaton: the reference meaning that the block-splitting loop of
    src/kv-conf/src/lib.rs is proved against. */
module KvAutomaton {
  import opened Strings

  type VarMap = map<string, string>

  datatype Quote = Unquoted | Single | Double

  datatype Error =
    | BadEscape
    | SplitBoundary
    | UnexpectedWhitespace
    | NoBraces
    | NoClosingBrace
    | UnknownVariable
    | MissingEquals
    | EmptyKey
    | InvalidKey

  /** What the next character means.
      - `Blank`: after an unquoted blank, where only blanks and a comment may
        follow; `mid` is set behind a white-space character that is not a blank,
        where a comment may no longer start.
      - `Dollar`, `Name`: inside a `${NAME}` reference.
      - `Ref`: directly behind the closing brace; the value is not yet emitted.
      - `Tail`: text behind a reference, up to the next delimiter.
      - `Cut`: text behind a brace inside such a tail, which is dropped together
        with the delimiter that ends it.
      - `Stop`: a comment or an escaped line end; the rest is ignored. */
  datatype Mode =
    | Plain
    | Escape
    | Blank(mid: bool)
    | Dollar
    | Name(acc: string)
    | Ref(value: string)
    | Tail
    | Cut
    | Stop
    | Fail(error: Error)

  datatype State = State(quote: Quote, mode: Mode, out: string)

  const START := State(Unquoted, Plain, "")

  predicate Delimiter(c: char) {
    c == '\\' || c == '\"' || c == '\'' || c == ' ' || c == '\t' || c == '$'
  }

  predicate Brace(c: char) { c == '{' || c == '}' }

  predicate Newline(c: char) { c == '\n' }

  /** An unescaped delimiter behind the text `out`. */
  function Delimit(q: Quote, c: char, out: string): State
  {
    if c == '\\' && q != Single then State(q, Escape, out)
    else if c == '\"' && q != Single then State(if q == Double then Unquoted else Double, Plain, out)
    else if c == '\'' && q != Double then State(if q == Single then Unquoted else Single, Plain, out)
    else if (c == ' ' || c == '\t') && q == Unquoted then State(q, Blank(false), out)
    else if c == '$' && q != Single then State(q, Dollar, out)
    else State(q, Plain, out + [c])
  }

  function TailStep(q: Quote, c: char, out: string): State {
    if Brace(c) then State(q, Cut, out + [c])
    else if Delimiter(c) then Delimit(q, c, out)
    else State(q, Tail, out + [c])
  }

  function Step(vars: VarMap, s: State, c: char): State
  {
    match s.mode
    case Plain => if Delimiter(c) then Delimit(s.quote, c, s.out) else s.(out := s.out + [c])
    case Escape =>
      if Delimiter(c) then s.(mode := Plain, out := s.out + [c])
      else if c == '\n' && s.quote != Unquoted then s.(mode := Stop)
      else s.(mode := Fail(BadEscape))
    case Blank(mid) =>
      if c == '#' && !mid then s.(mode := Stop)
      else if IsSpace(c) then s.(mode := Blank(c != ' ' && c != '\t'))
      else s.(mode := Fail(UnexpectedWhitespace))
    case Dollar => if c == '{' then s.(mode := Name("")) else s.(mode := Fail(NoBraces))
    case Name(acc) =>
      if c == '}' then
        if acc in vars then s.(mode := Ref(vars[acc])) else s.(mode := Fail(UnknownVariable))
      else if c == '{' || Delimiter(c) then s.(mode := Fail(NoClosingBrace))
      else s.(mode := Name(acc + [c]))
    case Ref(value) => TailStep(s.quote, c, s.out + value)
    case Tail => TailStep(s.quote, c, s.out)
    case Cut => if Delimiter(c) then s.(mode := Plain) else s
    case Stop => s
    case Fail(_) => s
  }

  function Run(vars: VarMap, s: State, text: string): State
    decreases |text|
  {
    if text == [] then s else Run(vars, Step(vars, s, text[0]), text[1..])
  }

  datatype Outcome =
    | Failed(error: Error)
    | Value(quote: Quote, text: string)   // `quote` is still open when not Unquoted

  /** A block end at the end of the input that consists of a substituted value
      only: the value itself is examined for a trailing delimiter. */
  function EndOfValue(q: Quote, value: string, out: string): Outcome
  {
    if value == "" then Value(q, out)
    else
      var c, body := value[|value| - 1], out + value[..|value| - 1];
      if Delimiter(c) then var d := Delimit(q, c, body); Value(d.quote, d.out)
      else if c == '\n' then Value(q, body)
      else Value(q, out + value)
  }

  /** The meaning of running to the end of `text` and ending in `s`. A line end
      that closes plain text is not part of the value. */
  function Finish(s: State, text: string): Outcome
  {
    match s.mode
    case Fail(e) => Failed(e)
    case Name(_) => Failed(NoClosingBrace)
    case Ref(value) => EndOfValue(s.quote, value, s.out)
    case Plain | Tail =>
      if text != "" && text[|text| - 1] == '\n' && s.out != "" then
        Value(s.quote, s.out[..|s.out| - 1])
      else Value(s.quote, s.out)
    case _ => Value(s.quote, s.out)
  }

  function Meaning(vars: VarMap, s: State, text: string): Outcome {
    Finish(Run(vars, s, text), text)
  }

  lemma RunFirst(vars: VarMap, s: State, text: string)
    ensures Run(vars, s, text) == if text == [] then s else Run(vars, Step(vars, s, text[0]), text[1..])
  {
  }

  lemma {:induction false} RunConcat(vars: VarMap, s: State, a: string, b: string)
    ensures Run(vars, s, a + b) == Run(vars, Run(vars, s, a), b)
    decreases |a|
  {
    if a == [] {
      assert a + b == b;
    } else {
      assert (a + b)[1..] == a[1..] + b;
      RunConcat(vars, Step(vars, s, a[0]), a[1..], b);
    }
  }

  lemma {:induction false} RunSettled(vars: VarMap, s: State, text: string)
    requires s.mode.Stop? || s.mode.Fail?
    ensures Run(vars, s, text) == s
    decreases |text|
  {
    if text != [] { RunSettled(vars, s, text[1..]); }
  }

  /** Run over text without delimiters. */
  lemma {:induction false} RunPlain(vars: VarMap, s: State, text: string)
    requires s.mode.Plain? && Free(text, Delimiter)
    ensures Run(vars, s, text) == s.(out := s.out + text)
    decreases |text|
  {
    if text == [] {
      assert s.out + text == s.out;
    } else {
      RunPlain(vars, s.(out := s.out + [text[0]]), text[1..]);
      assert s.out + text == s.out + [text[0]] + text[1..];
    }
  }
}
