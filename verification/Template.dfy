/** `sub_path_vars` (src/bin/rapido-cut.rs): `${KEY}` references in manifest names. */
module Template {
  import opened Strings
  import opened KvAutomaton
  import opened KvProcess

  predicate Dollar(c: char) { c == '$' }

  /** The value a block behind '$' refers to, and the text kept behind it. */
  function Reference(block: string, conf: VarMap): Option<(string, string)>
  {
    var pieces := SplitInclusive(block, Brace);
    if |pieces| == 0 || pieces[0] != "{" then None
    else if |pieces| < 2 || !EndsWith(pieces[1], '}') then None
    else
      var key := StripLast(pieces[1]);
      if key !in conf then None
      else Some((conf[key], if |pieces| > 2 then pieces[2] else ""))
  }

  /** The blocks still to come; `varNext` when the last one ended in '$'. */
  function SubBlocks(conf: VarMap, blocks: seq<string>, varNext: bool, out: string): Option<string>
    decreases |blocks|, 0
  {
    if blocks == [] then Some(out)
    else if varNext then
      match Reference(blocks[0], conf)
      case None => None
      case Some((value, tail)) => SubText(conf, tail, blocks[1..], out + value)
    else SubText(conf, blocks[0], blocks[1..], out)
  }

  function SubText(conf: VarMap, text: string, blocks: seq<string>, out: string): Option<string>
    decreases |blocks|, 1
  {
    if EndsWith(text, '$') then SubBlocks(conf, blocks, true, out + StripLast(text))
    else SubBlocks(conf, blocks, false, out + text)
  }

  function SubPathVars(conf: VarMap, p: string): Option<string> {
    SubBlocks(conf, SplitInclusive(p, Dollar), false, "")
  }

  /** The loop of the source. */
  method Substitute(conf: VarMap, p: string) returns (r: Option<string>)
    ensures r == SubPathVars(conf, p)
  {
    var blocks := SplitInclusive(p, Dollar);
    var unquotedVal, varNext, i := "", false, 0;
    while i < |blocks|
      invariant i <= |blocks|
      invariant SubBlocks(conf, blocks[i..], varNext, unquotedVal) == SubPathVars(conf, p)
    {
      var block := blocks[i];
      assert blocks[i..][1..] == blocks[i + 1..];
      i := i + 1;
      if varNext {
        varNext := false;
        var got := Reference(block, conf);
        if got.None? {
          return None;
        }
        unquotedVal := unquotedVal + got.value.0;
        block := got.value.1;
      }
      if EndsWith(block, '$') {
        varNext := true;
        unquotedVal := unquotedVal + StripLast(block);
      } else {
        unquotedVal := unquotedVal + block;
      }
    }
    return Some(unquotedVal);
  }

  // ---- templates ----------------------------------------------------------

  datatype Part = Lit(text: string) | Var(key: string)

  predicate TemplateChar(c: char) { c == '$' || c == '{' || c == '}' }

  predicate PartOk(p: Part) {
    match p case Lit(t) => Free(t, TemplateChar) case Var(k) => Free(k, TemplateChar)
  }

  predicate PartsOk(parts: seq<Part>) { forall i :: 0 <= i < |parts| ==> PartOk(parts[i]) }

  function Render(parts: seq<Part>): string {
    if parts == [] then ""
    else
      (match parts[0] case Lit(t) => t case Var(k) => "${" + k + "}") + Render(parts[1..])
  }

  /** Literals and values, side by side; a value is not looked at again. */
  function Expand(conf: VarMap, parts: seq<Part>): Option<string> {
    if parts == [] then Some("")
    else
      var head := match parts[0] case Lit(t) => Some(t) case Var(k) => if k in conf then Some(conf[k]) else None;
      var tail := Expand(conf, parts[1..]);
      if head.None? || tail.None? then None else Some(head.value + tail.value)
  }

  function After(out: string, more: Option<string>): Option<string> {
    match more case None => None case Some(t) => Some(out + t)
  }

  lemma AfterTwice(a: string, b: string, more: Option<string>)
    ensures After(a + b, more) == After(a, After(b, more))
  {
    if more.Some? { assert a + b + more.value == a + (b + more.value); }
  }

  /** A reference block in its two possible forms: at the end, or before a '$'. */
  lemma {:induction false} ReferenceIs(conf: VarMap, k: string, tail: string)
    requires Free(k, TemplateChar) && Free(tail, Brace)
    ensures Reference("{" + k + "}" + tail, conf) == if k in conf then Some((conf[k], tail)) else None
  {
    var b := "{" + k + "}" + tail;
    var n := |k| + 1;
    assert b[1..n] == k && b[n] == '}' && b[n + 1..] == tail && b[1..n + 1] == k + "}";
    PiecesOf(b, n);
    FirstPiece(tail);
    assert StripLast(k + "}") == k;
    if tail != [] { SplitLast(tail, Brace); }
    PiecesReference(b, conf, k + "}", SplitInclusive(tail, Brace));
  }

  lemma {:induction false} PiecesReference(b: string, conf: VarMap, p: string, more: seq<string>)
    requires SplitInclusive(b, Brace) == ["{"] + ([p] + more) && EndsWith(p, '}')
    ensures Reference(b, conf) ==
            if StripLast(p) !in conf then None else Some((conf[StripLast(p)], if more == [] then "" else more[0]))
  {
  }

  /** Text and parts still to come outside a reference. */
  lemma {:induction false} SubLiteral(conf: VarMap, pre: string, parts: seq<Part>, out: string)
    requires PartsOk(parts) && Free(pre, TemplateChar)
    ensures SubBlocks(conf, SplitInclusive(pre + Render(parts), Dollar), false, out)
         == After(out, After(pre, Expand(conf, parts)))
    decreases |parts|, 0
  {
    hide Reference;
    if parts == [] {
      assert pre + Render(parts) == pre;
      assert pre + "" == pre;
      if pre == [] {
        assert out + pre == out;
      } else {
        SplitLast(pre, Dollar);
        assert [pre][1..] == [];
      }
    } else if parts[0].Lit? {
      LitStep(conf, pre, parts);
      SubLiteral(conf, pre + parts[0].text, parts[1..], out);
    } else {
      var k, rest := parts[0].key, Render(parts[1..]);
      VarText(pre, k, rest);
      SplitFirst(pre, '$', "{" + k + "}" + "" + rest, Dollar);
      assert StripLast(pre + ['$']) == pre;
      SubReference(conf, k, "", parts[1..], out + pre);
      VarStep(conf, pre, parts, out);
    }
  }

  lemma VarText(pre: string, k: string, rest: string)
    ensures pre + ("${" + k + "}" + rest) == pre + ['$'] + ("{" + k + "}" + "" + rest)
  {
    assert "${" == "$" + "{";
  }

  lemma {:induction false} LitStep(conf: VarMap, pre: string, parts: seq<Part>)
    requires parts != [] && parts[0].Lit?
    ensures pre + Render(parts) == pre + parts[0].text + Render(parts[1..])
    ensures After(pre, Expand(conf, parts)) == After(pre + parts[0].text, Expand(conf, parts[1..]))
  {
    AfterTwice(pre, parts[0].text, Expand(conf, parts[1..]));
  }

  lemma {:induction false} VarStep(conf: VarMap, pre: string, parts: seq<Part>, out: string)
    requires parts != [] && parts[0].Var?
    ensures After(out, After(pre, Expand(conf, parts))) ==
            if parts[0].key in conf then After(out + pre, After(conf[parts[0].key], After("", Expand(conf, parts[1..])))) else None
  {
    var more := Expand(conf, parts[1..]);
    AfterTwice(out, pre, Expand(conf, parts));
    if more.Some? { assert "" + more.value == more.value; }
  }

  /** Directly behind a '$': a reference to `k`, then text and parts. */
  lemma {:induction false} SubReference(conf: VarMap, k: string, pre: string, parts: seq<Part>, out: string)
    requires PartsOk(parts) && Free(pre, TemplateChar) && Free(k, TemplateChar)
    ensures SubBlocks(conf, SplitInclusive("{" + k + "}" + pre + Render(parts), Dollar), true, out)
         == if k in conf then After(out, After(conf[k], After(pre, Expand(conf, parts)))) else None
    decreases |parts|, 1
  {
    hide Reference;
    var block := "{" + k + "}" + pre;
    assert Free(block, Dollar);
    if parts == [] {
      assert block + Render(parts) == block;
      SplitLast(block, Dollar);
      assert [block][1..] == [];
      ReferenceIs(conf, k, pre);
      assert !EndsWith(pre, '$');
      if k in conf {
        assert pre + "" == pre;
        assert out + (conf[k] + pre) == out + conf[k] + pre;
      }
    } else if parts[0].Lit? {
      LitStep(conf, pre, parts);
      LitText(k, pre, parts[0].text, Render(parts[1..]));
      SubReference(conf, k, pre + parts[0].text, parts[1..], out);
    } else {
      var k2, rest := parts[0].key, Render(parts[1..]);
      VarText(block, k2, rest);
      SplitFirst(block, '$', "{" + k2 + "}" + "" + rest, Dollar);
      assert block + ['$'] == "{" + k + "}" + (pre + ['$']);
      ReferenceIs(conf, k, pre + ['$']);
      if k in conf {
        assert StripLast(pre + ['$']) == pre;
        SubReference(conf, k2, "", parts[1..], out + conf[k] + pre);
        VarStep(conf, pre, parts, out + conf[k]);
        AfterTwice(out, conf[k], After(pre, Expand(conf, parts)));
      }
    }
  }

  lemma LitText(k: string, pre: string, t: string, rest: string)
    ensures "{" + k + "}" + pre + (t + rest) == "{" + k + "}" + (pre + t) + rest
  {
  }

  /** Template expansion: a name made of literals and references expands to the
      literals and the configured values, and fails if any key is unknown. */
  lemma {:induction false} TemplateExpands(conf: VarMap, parts: seq<Part>)
    requires PartsOk(parts)
    ensures SubPathVars(conf, Render(parts)) == Expand(conf, parts)
  {
    hide SubBlocks;
    SubLiteral(conf, "", parts, "");
    assert "" + Render(parts) == Render(parts);
    var e := Expand(conf, parts);
    if e.Some? { assert "" + e.value == e.value; }
  }

  /** A dollar sign that is not followed by an opening brace is an error. */
  lemma {:induction false} DollarNeedsBrace(conf: VarMap, pre: string, c: char, more: string)
    requires Free(pre, TemplateChar) && c != '{'
    ensures SubPathVars(conf, pre + ['$'] + ([c] + more)) == None
  {
    hide SplitInclusive;
    var rest := [c] + more;
    SplitFirst(pre, '$', rest, Dollar);
    SplitTail(rest, Dollar);
    var b := SplitInclusive(rest, Dollar)[0];
    assert b[0] == c;
    SplitTail(b, Brace);
    assert SplitInclusive(b, Brace)[0][0] == c;
    assert Reference(b, conf) == None;
    var blocks := SplitInclusive(pre + ['$'] + rest, Dollar);
    assert blocks[0] == pre + ['$'] && blocks[1..] == SplitInclusive(rest, Dollar);
    assert EndsWith(blocks[0], '$');
    assert SubBlocks(conf, blocks[1..], true, "" + StripLast(blocks[0])) == None;
    assert SubText(conf, blocks[0], blocks[1..], "") == None;
    assert SubBlocks(conf, blocks, false, "") == None;
  }
}
