/** The kernel command line: written by `vm_start` (src/bin/rapido-vm.rs), read by
    `kcli_parse` (src/bin/rapido-init.rs) inside the machine. */
module KernelCmdline {
  import opened Strings
  import opened Newc
  import opened Numbers

  predicate Separator(c: char) { c == ' ' || c == '\n' }

  predicate NoSeparator(s: string) { Free(s, Separator) }

  // ---- numbers as text ----------------------------------------------------

  function DecText(n: nat): string { Text(Decimal(n)) }

  predicate LowerHex(c: char) { '0' <= c <= '9' || 'a' <= c <= 'f' }

  function Lower(b: Byte): Byte { if 65 <= b <= 90 then b + 32 else b }

  function LowerAll(f: Bytes): Bytes { seq(|f|, i requires 0 <= i < |f| => Lower(f[i])) }

  /** `{:0kx}` for a number that fits: the digits of `{:0kX}` in lower case. */
  function HexText(n: nat, k: nat): (t: string)
    ensures |t| == k
  {
    Text(LowerAll(HexField(n, k)))
  }

  /** `parse::<u32>` */
  predicate IsU32(s: string) { ParseUnsigned(Encode(s), 0x1_0000_0000).Some? }

  // ---- reading ------------------------------------------------------------

  datatype Args = Args(hostname: Option<string>, vmNum: Option<string>, tapMac: Option<map<string, string>>,
                       stty: Option<string>, machineId: Option<string>, console: Option<string>)

  const NO_ARGS := Args(None, None, None, None, None, None)

  predicate Comma(c: char) { c == ',' }

  predicate Starts(w: string, p: string) { |p| <= |w| && w[..|p|] == p }

  function Rest(w: string, p: string): string
    requires Starts(w, p)
  {
    w[|p|..]
  }

  /** One word; None is an error. */
  function ReadWord(args: Args, w: string): Option<Args>
  {
    if Starts(w, "rapido.hostname=") then Some(args.(hostname := Some(Rest(w, "rapido.hostname="))))
    else if Starts(w, "rapido.vm_num=") then Some(args.(vmNum := Some(Rest(w, "rapido.vm_num="))))
    else if Starts(w, "rapido.mac.") then ReadMac(args, Rest(w, "rapido.mac."))
    else if Starts(w, "rapido.stty=") then ReadStty(args, Rest(w, "rapido.stty="))
    else if Starts(w, "systemd.machine_id=") then Some(args.(machineId := Some(Rest(w, "systemd.machine_id="))))
    else if Starts(w, "console=") then Some(args.(console := Some(Rest(w, "console="))))
    else Some(args)
  }

  function ReadMac(args: Args, kv: string): Option<Args>
  {
    var i := Find(kv, EqualsSign);
    if i == |kv| then None
    else
      var m := match args.tapMac case None => map[] case Some(m) => m;
      Some(args.(tapMac := Some(m[kv[..i] := kv[i + 1..]])))
  }

  function ReadStty(args: Args, rc: string): Option<Args>
  {
    var i := Find(rc, Comma);
    if i < |rc| && IsU32(rc[..i]) && IsU32(rc[i + 1..]) then Some(args.(stty := Some(rc))) else None
  }

  /** `split` on blanks and line ends: the pieces between, empty ones included. */
  function Words(s: string): seq<string>
    decreases |s|
  {
    var i := Find(s, Separator);
    if i == |s| then [s] else [s[..i]] + Words(s[i + 1..])
  }

  function ReadWords(args: Args, ws: seq<string>): Option<Args>
    decreases |ws|
  {
    if ws == [] then Some(args)
    else match ReadWord(args, ws[0]) case None => None case Some(a) => ReadWords(a, ws[1..])
  }

  method KcliParse(cmdline: string) returns (r: Option<Args>)
    ensures r == ReadWords(NO_ARGS, Words(cmdline))
  {
    hide ReadWord;
    var args := NO_ARGS;
    var ws := Words(cmdline);
    var i := 0;
    while i < |ws|
      invariant i <= |ws|
      invariant ReadWords(args, ws[i..]) == ReadWords(NO_ARGS, ws)
    {
      assert ws[i..][1..] == ws[i + 1..];
      var got := ReadWord(args, ws[i]);
      i := i + 1;
      if got.None? {
        return None;
      }
      args := got.value;
    }
    return Some(args);
  }

  // ---- writing ------------------------------------------------------------

  datatype Machine = Machine(
    console: string,
    vmNum: nat,
    stty: Option<(string, string)>,   // digits of rows and columns
    hostname: Option<string>,         // contents of the hostname file
    net: bool,
    taps: seq<(string, string)>,      // tap names and MAC addresses
    extra: Option<string>)            // QEMU_EXTRA_KERNEL_PARAMS

  function MacWord(tap: (string, string)): string { "rapido.mac." + tap.0 + "=" + tap.1 }

  function MacWords(taps: seq<(string, string)>): seq<string> {
    if taps == [] then [] else [MacWord(taps[0])] + MacWords(taps[1..])
  }

  /** The words in the order they are pushed. */
  function HeadWords(m: Machine): seq<string> {
    ["console=" + m.console, "rapido.vm_num=" + DecText(m.vmNum), "systemd.machine_id=" + HexText(m.vmNum, 32)]
    + (if m.stty.Some? then ["rapido.stty=" + m.stty.value.0 + "," + m.stty.value.1] else [])
    + (if m.hostname.Some? then ["rapido.hostname=" + TrimEnd(m.hostname.value)] else [])
    + (if m.net then ["net.ifnames=0"] else [])
  }

  function TapWords(m: Machine): seq<string> { if m.net then MacWords(m.taps) else [] }

  /** Every word behind a blank. */
  function Spaced(ws: seq<string>): string {
    if ws == [] then "" else " " + ws[0] + Spaced(ws[1..])
  }

  function Cmdline(m: Machine): string {
    "rdinit=/rdinit" + Spaced(HeadWords(m) + TapWords(m)) + (if m.extra.Some? then " " + m.extra.value else "")
  }

  lemma {:induction false} SpacedSnoc(ws: seq<string>, w: string)
    ensures Spaced(ws + [w]) == Spaced(ws) + " " + w
    decreases |ws|
  {
    if ws == [] {
      assert ws + [w] == [w];
      assert [w][1..] == [];
      assert " " + w + "" == "" + " " + w;
    } else {
      assert (ws + [w])[1..] == ws[1..] + [w];
      SpacedSnoc(ws[1..], w);
      assert " " + ws[0] + (Spaced(ws[1..]) + " " + w) == " " + ws[0] + Spaced(ws[1..]) + " " + w;
    }
  }

  /** The command line as `vm_start` puts it together, push by push. */
  method BuildCmdline(m: Machine) returns (kcmdline: string)
    ensures kcmdline == Cmdline(m)
  {
    hide Spaced, DecText, HexText, TrimEnd;
    ghost var ws: seq<string> := [];
    SpacedNothing();
    kcmdline := "rdinit=/rdinit";
    ghost var pre := kcmdline;
    assert pre + "" == pre;
    ws := PushWord(pre, ws, "console=" + m.console);
    kcmdline := kcmdline + " " + ("console=" + m.console);
    ws := PushWord(pre, ws, "rapido.vm_num=" + DecText(m.vmNum));
    kcmdline := kcmdline + " " + ("rapido.vm_num=" + DecText(m.vmNum));
    ws := PushWord(pre, ws, "systemd.machine_id=" + HexText(m.vmNum, 32));
    kcmdline := kcmdline + " " + ("systemd.machine_id=" + HexText(m.vmNum, 32));
    if m.stty.Some? {
      ws := PushWord(pre, ws, "rapido.stty=" + m.stty.value.0 + "," + m.stty.value.1);
      kcmdline := kcmdline + " " + ("rapido.stty=" + m.stty.value.0 + "," + m.stty.value.1);
    }
    if m.hostname.Some? {
      ws := PushWord(pre, ws, "rapido.hostname=" + TrimEnd(m.hostname.value));
      kcmdline := kcmdline + " " + ("rapido.hostname=" + TrimEnd(m.hostname.value));
    }
    if m.net {
      ws := PushWord(pre, ws, "net.ifnames=0");
      kcmdline := kcmdline + " " + "net.ifnames=0";
    }
    assert ws == HeadWords(m);
    assert HeadWords(m) + [] == HeadWords(m);
    if m.net {
      kcmdline := PushMacs(kcmdline, m.taps, pre, ws);
    }
    assert kcmdline == pre + Spaced(HeadWords(m) + TapWords(m));
    if m.extra.Some? {
      kcmdline := kcmdline + (" " + m.extra.value);
    } else {
      assert kcmdline + "" == kcmdline;
    }
  }

  /** One word for every tap device. */
  method PushMacs(line: string, taps: seq<(string, string)>, ghost pre: string, ghost words: seq<string>) returns (kcmdline: string)
    requires line == pre + Spaced(words)
    ensures kcmdline == pre + Spaced(words + MacWords(taps))
  {
    hide Spaced, MacWord;
    kcmdline := line;
    ghost var ws := words;
    var i := 0;
    assert taps[0..] == taps;
    while i < |taps|
      invariant i <= |taps|
      invariant kcmdline == pre + Spaced(ws)
      invariant ws + MacWords(taps[i..]) == words + MacWords(taps)
    {
      assert taps[i..][1..] == taps[i + 1..];
      assert MacWords(taps[i..]) == [MacWord(taps[i])] + MacWords(taps[i + 1..]);
      assert ws + [MacWord(taps[i])] + MacWords(taps[i + 1..]) == ws + MacWords(taps[i..]);
      ws := PushWord(pre, ws, MacWord(taps[i]));
      kcmdline := kcmdline + " " + MacWord(taps[i]);
      i := i + 1;
    }
    assert ws + [] == ws;
  }

  lemma SpacedNothing()
    ensures Spaced([]) == ""
  {
  }

  lemma {:induction false} PushWord(pre: string, ws: seq<string>, w: string) returns (next: seq<string>)
    ensures next == ws + [w]
    ensures pre + Spaced(next) == pre + Spaced(ws) + " " + w
  {
    hide Spaced;
    next := ws + [w];
    SpacedSnoc(ws, w);
    assert pre + (Spaced(ws) + " " + w) == pre + Spaced(ws) + " " + w;
  }

  // ---- words and blanks ---------------------------------------------------

  lemma {:induction false} WordsFirst(w: string, c: char, rest: string)
    requires NoSeparator(w) && Separator(c)
    ensures Words(w + [c] + rest) == [w] + Words(rest)
  {
    var s := w + [c] + rest;
    FindIsFirst(s, Separator, |w|);
    assert s[..|w|] == w && s[|w| + 1..] == rest;
  }

  predicate AllSolid(ws: seq<string>) { forall i :: 0 <= i < |ws| ==> NoSeparator(ws[i]) }

  /** Splitting gives back the words that were joined, and the words of the tail. */
  lemma {:induction false} WordsSpaced(w: string, ws: seq<string>, tail: string)
    requires NoSeparator(w) && AllSolid(ws)
    ensures Words(w + Spaced(ws) + " " + tail) == [w] + ws + Words(tail)
    ensures Words(w + Spaced(ws)) == [w] + ws
    decreases |ws|
  {
    hide Words, Spaced;
    SpacedStep(ws);
    if ws == [] {
      assert w + "" == w;
      WordsFirst(w, ' ', tail);
      assert w + [' '] + tail == w + " " + tail;
      WordsOne(w);
      assert [w] + [] == [w];
    } else {
      var more := ws[0] + Spaced(ws[1..]);
      WordsSpaced(ws[0], ws[1..], tail);
      SpacedText(w, ws[0], Spaced(ws[1..]), tail);
      WordsFirst(w, ' ', more + " " + tail);
      WordsFirst(w, ' ', more);
      assert [w] + ([ws[0]] + ws[1..]) == [w] + ws;
      assert [w] + ([ws[0]] + ws[1..] + Words(tail)) == [w] + ws + Words(tail);
    }
  }

  lemma WordsOne(w: string)
    requires NoSeparator(w)
    ensures Words(w) == [w]
  {
    FindIsFirst(w, Separator, |w|);
  }

  lemma SpacedStep(ws: seq<string>)
    ensures Spaced(ws) == if ws == [] then "" else " " + ws[0] + Spaced(ws[1..])
  {
  }

  lemma SpacedText(w: string, w1: string, s: string, tail: string)
    ensures w + (" " + w1 + s) == w + [' '] + (w1 + s)
    ensures w + (" " + w1 + s) + " " + tail == w + [' '] + (w1 + s + " " + tail)
  {
  }

  lemma {:induction false} ReadConcat(args: Args, a: seq<string>, b: seq<string>)
    ensures ReadWords(args, a + b) ==
            match ReadWords(args, a) case None => None case Some(x) => ReadWords(x, b)
    decreases |a|
  {
    hide ReadWord;
    if a == [] {
      assert a + b == b;
    } else {
      assert (a + b)[1..] == a[1..] + b;
      var got := ReadWord(args, a[0]);
      if got.Some? { ReadConcat(got.value, a[1..], b); }
    }
  }

  // ---- reading each word --------------------------------------------------

  lemma Differs(w: string, p: string, i: nat)
    requires i < |p| && (i >= |w| || w[i] != p[i])
    ensures !Starts(w, p)
  {
  }

  lemma Prefixed(p: string, v: string)
    ensures Starts(p + v, p) && Rest(p + v, p) == v
  {
  }

  /** Not one of the words that are looked for. */
  predicate Neutral(w: string) {
    && !Starts(w, "rapido.hostname=") && !Starts(w, "rapido.vm_num=") && !Starts(w, "rapido.mac.")
    && !Starts(w, "rapido.stty=") && !Starts(w, "systemd.machine_id=") && !Starts(w, "console=")
  }

  /** None of the words that start with "rapido." */
  lemma NotRapido(w: string)
    requires |w| > 0 && w[0] != 'r'
    ensures !Starts(w, "rapido.hostname=") && !Starts(w, "rapido.vm_num=") && !Starts(w, "rapido.mac.") && !Starts(w, "rapido.stty=")
  {
    hide Starts;
    Differs(w, "rapido.hostname=", 0);
    Differs(w, "rapido.vm_num=", 0);
    Differs(w, "rapido.mac.", 0);
    Differs(w, "rapido.stty=", 0);
  }

  lemma FixedNeutral()
    ensures Neutral("rdinit=/rdinit") && Neutral("net.ifnames=0")
  {
    hide Starts;
    var w := "rdinit=/rdinit";
    Differs(w, "rapido.hostname=", 1);
    Differs(w, "rapido.vm_num=", 1);
    Differs(w, "rapido.mac.", 1);
    Differs(w, "rapido.stty=", 1);
    Differs(w, "systemd.machine_id=", 0);
    Differs(w, "console=", 0);
    NotRapido("net.ifnames=0");
    Differs("net.ifnames=0", "systemd.machine_id=", 0);
    Differs("net.ifnames=0", "console=", 0);
  }

  lemma {:induction false} ReadConsole(args: Args, v: string)
    ensures ReadWord(args, "console=" + v) == Some(args.(console := Some(v)))
  {
    hide Starts, ReadMac, ReadStty;
    var w := "console=" + v;
    NotRapido(w);
    Differs(w, "systemd.machine_id=", 0);
    Prefixed("console=", v);
  }

  lemma {:induction false} ReadMachineId(args: Args, v: string)
    ensures ReadWord(args, "systemd.machine_id=" + v) == Some(args.(machineId := Some(v)))
  {
    hide Starts, ReadMac, ReadStty;
    NotRapido("systemd.machine_id=" + v);
    Prefixed("systemd.machine_id=", v);
  }

  lemma {:induction false} ReadHostname(args: Args, v: string)
    ensures ReadWord(args, "rapido.hostname=" + v) == Some(args.(hostname := Some(v)))
  {
    hide Starts, ReadMac, ReadStty;
    Prefixed("rapido.hostname=", v);
  }

  lemma {:induction false} ReadVmNum(args: Args, v: string)
    ensures ReadWord(args, "rapido.vm_num=" + v) == Some(args.(vmNum := Some(v)))
  {
    hide Starts, ReadMac, ReadStty;
    Differs("rapido.vm_num=" + v, "rapido.hostname=", 7);
    Prefixed("rapido.vm_num=", v);
  }

  lemma {:induction false} ReadMacWord(args: Args, kv: string)
    ensures ReadWord(args, "rapido.mac." + kv) == ReadMac(args, kv)
  {
    hide Starts, ReadMac, ReadStty;
    Differs("rapido.mac." + kv, "rapido.hostname=", 7);
    Differs("rapido.mac." + kv, "rapido.vm_num=", 7);
    Prefixed("rapido.mac.", kv);
  }

  lemma {:induction false} ReadSttyWord(args: Args, rc: string)
    ensures ReadWord(args, "rapido.stty=" + rc) == ReadStty(args, rc)
  {
    hide Starts, ReadMac, ReadStty;
    Differs("rapido.stty=" + rc, "rapido.hostname=", 7);
    Differs("rapido.stty=" + rc, "rapido.vm_num=", 7);
    Differs("rapido.stty=" + rc, "rapido.mac.", 7);
    Prefixed("rapido.stty=", rc);
  }

  lemma {:induction false} ReadNeutral(args: Args, ws: seq<string>)
    requires forall i :: 0 <= i < |ws| ==> Neutral(ws[i])
    ensures ReadWords(args, ws) == Some(args)
    decreases |ws|
  {
    hide Starts;
    if ws != [] {
      assert Neutral(ws[0]);
      ReadNeutral(args, ws[1..]);
    }
  }

  // ---- the round trip -----------------------------------------------------

  predicate TapOk(tap: (string, string)) {
    NoSeparator(tap.0) && Free(tap.0, EqualsSign) && NoSeparator(tap.1)
  }

  predicate SttyOk(rc: (string, string)) {
    NoSeparator(rc.0) && NoSeparator(rc.1) && Free(rc.0, Comma) && IsU32(rc.0) && IsU32(rc.1)
  }

  /** What `vm_start` puts in is free of blanks where it has to be, and the extra
      parameters use none of the keys. */
  predicate Proper(m: Machine) {
    && NoSeparator(m.console)
    && (m.stty.Some? ==> SttyOk(m.stty.value))
    && (m.hostname.Some? ==> NoSeparator(TrimEnd(m.hostname.value)))
    && (forall i :: 0 <= i < |m.taps| ==> TapOk(m.taps[i]))
    && (m.extra.Some? ==> forall i :: 0 <= i < |Words(m.extra.value)| ==> Neutral(Words(m.extra.value)[i]))
  }

  function TapMap(taps: seq<(string, string)>, m: map<string, string>): map<string, string> {
    if taps == [] then m else TapMap(taps[1..], m[taps[0].0 := taps[0].1])
  }

  /** What the machine should learn. */
  function Expected(m: Machine): Args {
    Args(if m.hostname.Some? then Some(TrimEnd(m.hostname.value)) else None,
         Some(DecText(m.vmNum)),
         if m.net && m.taps != [] then Some(TapMap(m.taps, map[])) else None,
         if m.stty.Some? then Some(m.stty.value.0 + "," + m.stty.value.1) else None,
         Some(HexText(m.vmNum, 32)),
         Some(m.console))
  }

  lemma {:induction false} ReadTap(args: Args, tap: (string, string))
    requires TapOk(tap)
    ensures ReadWord(args, MacWord(tap)) ==
            Some(args.(tapMac := Some((match args.tapMac case None => map[] case Some(m) => m)[tap.0 := tap.1])))
  {
    hide ReadWord;
    var kv := tap.0 + "=" + tap.1;
    assert MacWord(tap) == "rapido.mac." + kv;
    ReadMacWord(args, kv);
    FindIsFirst(kv, EqualsSign, |tap.0|);
    assert kv[..|tap.0|] == tap.0 && kv[|tap.0| + 1..] == tap.1;
  }

  lemma {:induction false} ReadTaps(args: Args, taps: seq<(string, string)>)
    requires forall i :: 0 <= i < |taps| ==> TapOk(taps[i])
    ensures ReadWords(args, MacWords(taps)) ==
            Some(if taps == [] then args
                 else args.(tapMac := Some(TapMap(taps, match args.tapMac case None => map[] case Some(m) => m))))
    decreases |taps|
  {
    hide ReadWord, TapOk, MacWord;
    if taps != [] {
      assert TapOk(taps[0]);
      ReadTap(args, taps[0]);
      var args1 := ReadWord(args, MacWord(taps[0])).value;
      assert MacWords(taps)[1..] == MacWords(taps[1..]);
      ReadTaps(args1, taps[1..]);
    }
  }

  lemma {:induction false} ReadSize(args: Args, rc: (string, string))
    requires SttyOk(rc)
    ensures ReadWord(args, "rapido.stty=" + rc.0 + "," + rc.1) == Some(args.(stty := Some(rc.0 + "," + rc.1)))
  {
    hide ReadWord, IsU32;
    var t := rc.0 + "," + rc.1;
    assert "rapido.stty=" + rc.0 + "," + rc.1 == "rapido.stty=" + t;
    ReadSttyWord(args, t);
    FindIsFirst(t, Comma, |rc.0|);
    assert t[..|rc.0|] == rc.0 && t[|rc.0| + 1..] == rc.1;
  }

  lemma {:induction false} ReadOne(args: Args, w: string)
    ensures ReadWords(args, [w]) == ReadWord(args, w)
  {
    hide ReadWord;
    assert [w][1..] == [];
  }

  /** An optional word. */
  lemma {:induction false} ReadMaybe(args: Args, present: bool, w: string)
    ensures ReadWords(args, if present then [w] else []) == if present then ReadWord(args, w) else Some(args)
  {
    hide ReadWord;
    if present { ReadOne(args, w); }
  }

  lemma {:induction false} ReadHead(m: Machine)
    requires Proper(m)
    ensures ReadWords(NO_ARGS, HeadWords(m)) == Some(Expected(m).(tapMac := None))
  {
    hide ReadWord, ReadWords, TrimEnd, DecText, HexText, TapMap, IsU32, Neutral, Words;
    var size, host := m.stty.Some?, m.hostname.Some?;
    var w1, w2, w3 := "console=" + m.console, "rapido.vm_num=" + DecText(m.vmNum), "systemd.machine_id=" + HexText(m.vmNum, 32);
    var sw := if size then "rapido.stty=" + m.stty.value.0 + "," + m.stty.value.1 else "";
    var hw := if host then "rapido.hostname=" + TrimEnd(m.hostname.value) else "";
    var a1 := NO_ARGS.(console := Some(m.console));
    var a2 := a1.(vmNum := Some(DecText(m.vmNum)));
    var a3 := a2.(machineId := Some(HexText(m.vmNum, 32)));
    var a4 := if size then a3.(stty := Some(m.stty.value.0 + "," + m.stty.value.1)) else a3;
    var a5 := if host then a4.(hostname := Some(TrimEnd(m.hostname.value))) else a4;
    var s4: seq<string> := if size then [sw] else [];
    var s5: seq<string> := if host then [hw] else [];
    var s6: seq<string> := if m.net then ["net.ifnames=0"] else [];
    ReadConsole(NO_ARGS, m.console); ReadOne(NO_ARGS, w1);
    ReadVmNum(a1, DecText(m.vmNum)); ReadOne(a1, w2);
    ReadMachineId(a2, HexText(m.vmNum, 32)); ReadOne(a2, w3);
    if size { ReadSize(a3, m.stty.value); }
    ReadMaybe(a3, size, sw);
    if host { ReadHostname(a4, TrimEnd(m.hostname.value)); }
    ReadMaybe(a4, host, hw);
    ReadMaybe(a5, m.net, "net.ifnames=0");
    FixedNeutral();
    ReadFixed(a5, "net.ifnames=0");
    Chain(NO_ARGS, [w1], a1, [w2], a2);
    Chain(NO_ARGS, [w1] + [w2], a2, [w3], a3);
    Chain(NO_ARGS, [w1] + [w2] + [w3], a3, s4, a4);
    Chain(NO_ARGS, [w1] + [w2] + [w3] + s4, a4, s5, a5);
    Chain(NO_ARGS, [w1] + [w2] + [w3] + s4 + s5, a5, s6, a5);
    assert [w1] + [w2] + [w3] == [w1, w2, w3];
  }

  lemma ReadFixed(args: Args, w: string)
    requires Neutral(w)
    ensures ReadWord(args, w) == Some(args)
  {
    hide Starts;
  }

  lemma {:induction false} Chain(a: Args, x: seq<string>, b: Args, y: seq<string>, c: Args)
    requires ReadWords(a, x) == Some(b) && ReadWords(b, y) == Some(c)
    ensures ReadWords(a, x + y) == Some(c)
  {
    hide ReadWords;
    ReadConcat(a, x, y);
  }

  // ---- nothing written contains a blank -----------------------------------

  lemma {:induction false} DecSolid(n: nat)
    ensures NoSeparator(DecText(n))
  {
    DecimalReads(n);
  }

  /** The number on the command line is the number of the machine. */
  lemma {:induction false} DecReads(n: nat, limit: nat)
    requires n < limit
    ensures ParseUnsigned(Encode(DecText(n)), limit) == Some(n)
  {
    hide Encode;
    DecimalReads(n);
    EncodeText(Decimal(n));
  }

  lemma {:induction false} HexSolid(n: nat, k: nat)
    ensures NoSeparator(HexText(n, k))
    ensures forall i :: 0 <= i < k ==> LowerHex(HexText(n, k)[i])
  {
    HexFieldDigits(n, k);
  }

  /** The machine id on the command line is the number of the machine in base 16. */
  lemma {:induction false} HexReads(n: nat, k: nat)
    requires n < Pow16(k)
    ensures HexDigits(Encode(HexText(n, k))) == Some(n)
  {
    hide Encode, HexDigits, Text, LowerAll, HexField;
    EncodeText(LowerAll(HexField(n, k)));
    LowerReads(n, k);
  }

  lemma {:induction false} LowerReads(n: nat, k: nat)
    requires n < Pow16(k)
    ensures HexDigits(LowerAll(HexField(n, k))) == Some(n)
    decreases k
  {
    if k > 0 {
      LowerReads(n / 16, k - 1);
      var f, head := HexField(n, k), HexField(n / 16, k - 1);
      assert LowerAll(f)[..k - 1] == LowerAll(head);
      LowerValue(n % 16);
    }
  }

  lemma LowerValue(d: nat)
    requires d < 16
    ensures HexValue(Lower(HexDigit(d))) == Some(d)
  {
  }

  lemma {:induction false} HexFieldDigits(n: nat, k: nat)
    ensures forall i :: 0 <= i < k ==> 48 <= HexField(n, k)[i] <= 57 || 65 <= HexField(n, k)[i] <= 70
    decreases k
  {
    if k > 0 { HexFieldDigits(n / 16, k - 1); }
  }

  lemma SolidConcat(a: string, b: string)
    requires NoSeparator(a) && NoSeparator(b)
    ensures NoSeparator(a + b)
  {
  }

  lemma {:induction false} MacSolid(taps: seq<(string, string)>)
    requires forall i :: 0 <= i < |taps| ==> TapOk(taps[i])
    ensures AllSolid(MacWords(taps))
    decreases |taps|
  {
    if taps != [] {
      assert TapOk(taps[0]);
      MacSolid(taps[1..]);
      SolidConcat("rapido.mac.", taps[0].0);
      SolidConcat("rapido.mac." + taps[0].0, "=");
      SolidConcat("rapido.mac." + taps[0].0 + "=", taps[0].1);
    }
  }

  lemma AllSolidConcat(a: seq<string>, b: seq<string>)
    requires AllSolid(a) && AllSolid(b)
    ensures AllSolid(a + b)
  {
    hide NoSeparator;
  }

  lemma {:induction false} HeadSolid(m: Machine)
    requires Proper(m)
    ensures AllSolid(HeadWords(m))
  {
    hide TrimEnd, DecText, HexText, IsU32, Neutral, Words;
    DecSolid(m.vmNum);
    HexSolid(m.vmNum, 32);
    SolidConcat("console=", m.console);
    SolidConcat("rapido.vm_num=", DecText(m.vmNum));
    SolidConcat("systemd.machine_id=", HexText(m.vmNum, 32));
    if m.stty.Some? {
      SolidConcat("rapido.stty=", m.stty.value.0);
      SolidConcat("rapido.stty=" + m.stty.value.0, ",");
      SolidConcat("rapido.stty=" + m.stty.value.0 + ",", m.stty.value.1);
    }
    if m.hostname.Some? { SolidConcat("rapido.hostname=", TrimEnd(m.hostname.value)); }
  }

  /** Kernel command line round trip: the machine learns exactly the console, the
      number, the terminal size, the host name and the MAC addresses that were put
      on the command line. */
  lemma {:induction false} CmdlineRoundTrip(m: Machine)
    requires Proper(m)
    ensures ReadWords(NO_ARGS, Words(Cmdline(m))) == Some(Expected(m))
  {
    hide Words, ReadWords, HeadWords, Spaced, Neutral, TrimEnd, DecText, HexText, IsU32, TapMap, MacWords;
    var ws := HeadWords(m) + TapWords(m);
    var first := "rdinit=/rdinit";
    HeadSolid(m);
    MacSolid(m.taps);
    AllSolidConcat(HeadWords(m), TapWords(m));
    var tail: seq<string> := if m.extra.Some? then Words(m.extra.value) else [];
    WordsSpaced(first, ws, if m.extra.Some? then m.extra.value else "");
    ExtraText(first + Spaced(ws), if m.extra.Some? then m.extra.value else "");
    assert [first] + ws + tail == [first] + HeadWords(m) + TapWords(m) + tail;
    if m.extra.None? { assert [first] + ws + tail == [first] + ws; }
    assert Words(Cmdline(m)) == [first] + ws + tail;
    FixedNeutral();
    ReadFixed(NO_ARGS, first); ReadOne(NO_ARGS, first);
    ReadHead(m);
    var a1 := Expected(m).(tapMac := None);
    ReadTaps(a1, m.taps);
    NoTaps(a1);
    ReadNeutral(Expected(m), tail);
    Chain(NO_ARGS, [first], NO_ARGS, HeadWords(m), a1);
    Chain(NO_ARGS, [first] + HeadWords(m), a1, TapWords(m), Expected(m));
    Chain(NO_ARGS, [first] + HeadWords(m) + TapWords(m), Expected(m), tail, Expected(m));
  }

  lemma ExtraText(a: string, extra: string)
    ensures a + (" " + extra) == a + " " + extra && a + "" == a
  {
  }

  lemma NoTaps(args: Args)
    ensures ReadWords(args, []) == Some(args)
  {
  }

  // ---- words that are refused ---------------------------------------------

  /** A terminal size that is not two numbers of 32 bits with a comma between them, and a
      MAC address without `=`, make the whole command line an error. */
  lemma {:induction false} BadWordsRefused(args: Args, w: string, more: seq<string>)
    ensures ',' !in w ==> ReadWords(args, ["rapido.stty=" + w] + more) == None
    ensures '=' !in w ==> ReadWords(args, ["rapido.mac." + w] + more) == None
  {
    hide ReadWord;
    ReadSttyWord(args, w);
    ReadMacWord(args, w);
    if ',' !in w { FindIsFirst(w, Comma, |w|); }
    if '=' !in w { FindIsFirst(w, EqualsSign, |w|); }
    assert (["rapido.stty=" + w] + more)[0] == "rapido.stty=" + w;
    assert (["rapido.mac." + w] + more)[0] == "rapido.mac." + w;
  }

  lemma {:induction false} BadSizeRefused(args: Args, rows: string, cols: string, more: seq<string>)
    requires ',' !in rows && !(IsU32(rows) && IsU32(cols))
    ensures ReadWords(args, ["rapido.stty=" + (rows + "," + cols)] + more) == None
  {
    hide ReadWord, IsU32;
    var w := rows + "," + cols;
    ReadSttyWord(args, w);
    FindIsFirst(w, Comma, |rows|);
    assert w[..|rows|] == rows && w[|rows| + 1..] == cols;
    assert (["rapido.stty=" + w] + more)[0] == "rapido.stty=" + w;
  }
}
