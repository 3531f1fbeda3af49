/** What the resource names in an initramfs mean (src/bin/rapido-vm.rs). */
module VmNames {
  import opened Strings
  import opened Newc
  import opened Numbers
  import opened Cpio
  import opened Walker
  import opened VmResources

  function CpuPrefix(): Bytes { Encode("rapido-rsc/cpu/") }
  function MemPrefix(): Bytes { Encode("rapido-rsc/mem/") }
  function NetName(): Bytes { Encode("rapido-rsc/net") }

  /** The three names lead apart: they differ at the twelfth byte. */
  lemma PrefixesApart()
    ensures |CpuPrefix()| == 15 && |MemPrefix()| == 15 && |NetName()| == 14
    ensures CpuPrefix()[11] == 99 && MemPrefix()[11] == 109 && NetName()[11] == 110
    ensures InRsc(CpuPrefix()) && InRsc(MemPrefix()) && InRsc(NetName())
  {
    hide Encode;
    EncodeAt("rapido-rsc/cpu/");
    EncodeAt("rapido-rsc/mem/");
    EncodeAt("rapido-rsc/net");
    EncodeConcat("rapido-rsc", "/cpu/");
    EncodeConcat("rapido-rsc", "/mem/");
    EncodeConcat("rapido-rsc", "/net");
    assert "rapido-rsc" + "/cpu/" == "rapido-rsc/cpu/";
    assert "rapido-rsc" + "/mem/" == "rapido-rsc/mem/";
    assert "rapido-rsc" + "/net" == "rapido-rsc/net";
  }

  /** Without an optional plus sign in front. */
  function Unsigned(s: Bytes): Bytes { if s != [] && s[0] == 43 then s[1..] else s }

  predicate IsDecimal(s: Bytes) { Unsigned(s) != [] && forall i :: 0 <= i < |Unsigned(s)| ==> 48 <= Unsigned(s)[i] <= 57 }

  function NumberOf(s: Bytes): nat
    requires IsDecimal(s)
  {
    Value(Unsigned(s))
  }

  predicate IsNumber(s: Bytes, limit: nat) { IsDecimal(s) && NumberOf(s) < limit }

  lemma ParseExact(s: Bytes, limit: nat)
    ensures ParseUnsigned(s, limit) == if IsNumber(s, limit) then Some(NumberOf(s)) else None
  {
    hide Value;
  }

  /** `rapido-rsc/cpu/` and a number of 32 bits sets the CPU count; with anything else
      behind it the archive is refused. */
  lemma {:induction false} CpuName(v: Bytes, r: Resources)
    ensures ProcessName(CpuPrefix() + v, r) ==
            if IsNumber(v, 0x1_0000_0000) then Inside(r.(cpus := NumberOf(v))) else Malformed
  {
    hide Encode, IsDecimal, NumberOf, ParseUnsigned;
    var name := CpuPrefix() + v;
    assert name[|CpuPrefix()|..] == v;
    ParseExact(v, 0x1_0000_0000);
  }

  lemma {:induction false} CpuDecimal(n: nat, r: Resources)
    requires n < 0x1_0000_0000
    ensures ProcessName(CpuPrefix() + Decimal(n), r) == Inside(r.(cpus := n))
  {
    hide ProcessName, Decimal, CpuPrefix;
    DecimalReads(n);
    assert Decimal(n)[0] != 43;
    CpuName(Decimal(n), r);
  }

  /** A memory size: a number of 64 bits, and one of the letters mMgG if any. */
  predicate IsSize(v: Bytes) {
    || IsNumber(v, 0x1_0000_0000_0000_0000)
    || (v != [] && v[|v| - 1] in {109, 77, 103, 71} && IsNumber(v[..|v| - 1], 0x1_0000_0000_0000_0000))
  }

  lemma {:induction false} SizeExact(v: Bytes)
    ensures IsMemSize(v) <==> IsSize(v)
  {
    hide NumberOf, ParseUnsigned;
    var limit := 0x1_0000_0000_0000_0000;
    ParseExact(v, limit);
    if v != [] {
      ParseExact(v[..|v| - 1], limit);
      var d := Unsigned(v);
      assert d != [] ==> d[|d| - 1] == v[|v| - 1];
      assert IsUnit(v[|v| - 1]) <==> v[|v| - 1] in {109, 77, 103, 71};
    }
  }

  /** `rapido-rsc/mem/` and a size sets the memory size to exactly that text; anything
      else behind it is refused. */
  lemma {:induction false} MemName(v: Bytes, r: Resources)
    ensures ProcessName(MemPrefix() + v, r) == if IsSize(v) then Inside(r.(mem := v)) else Malformed
  {
    hide Encode, IsNumber, ParseUnsigned, IsSize, IsMemSize;
    PrefixesApart();
    var name := MemPrefix() + v;
    assert name[|MemPrefix()|..] == v && name[11] == 109;
    SizeExact(v);
  }

  /** `rapido-rsc/net` switches networking on. */
  lemma {:induction false} NetIs(r: Resources)
    ensures ProcessName(NetName(), r) == Inside(r.(net := true))
  {
    hide Encode, Value;
    PrefixesApart();
  }

  /** Every other name below `rapido-rsc` is accepted and changes nothing, and so does
      every name that is not below it. */
  lemma {:induction false} OtherName(name: Bytes, r: Resources)
    requires !(CpuPrefix() <= name) && !(MemPrefix() <= name) && name != NetName()
    ensures ProcessName(name, r) == if Encode("rapido-rsc") <= name then Inside(r) else Outside
  {
    hide Encode, Value;
  }

  // ---- whole archives -----------------------------------------------------

  /** What a name says about the CPU count, and about the memory size. */
  function CpuText(ent: Ent): Option<Bytes> {
    if CpuPrefix() <= FieldOf(ent) then Some(FieldOf(ent)[|CpuPrefix()|..]) else None
  }

  function MemText(ent: Ent): Option<Bytes> {
    if MemPrefix() <= FieldOf(ent) then Some(FieldOf(ent)[|MemPrefix()|..]) else None
  }

  /** The last text of a kind, found from the end. */
  function Last(says: Ent -> Option<Bytes>, ents: seq<Ent>): Option<Bytes> {
    if ents == [] then None
    else
      var n := |ents| - 1;
      if says(ents[n]).Some? then says(ents[n]) else Last(says, ents[..n])
  }

  lemma {:induction false} LastFront(says: Ent -> Option<Bytes>, ents: seq<Ent>)
    requires ents != []
    ensures Last(says, ents) == if Last(says, ents[1..]).Some? then Last(says, ents[1..]) else says(ents[0])
    decreases |ents|
  {
    var n := |ents| - 1;
    if n > 0 {
      LastFront(says, ents[..n]);
      assert ents[1..][..n - 1] == ents[..n][1..];
    }
  }

  predicate Good(ent: Ent) {
    && (CpuText(ent).Some? ==> IsNumber(CpuText(ent).value, 0x1_0000_0000))
    && (MemText(ent).Some? ==> IsSize(MemText(ent).value))
  }

  ghost predicate AllGood(ents: seq<Ent>) { forall i :: 0 <= i < |ents| ==> Good(ents[i]) }

  ghost predicate SaysNet(ents: seq<Ent>) { exists i :: 0 <= i < |ents| && FieldOf(ents[i]) == NetName() }

  /** The resources that a sequence of names asks for. */
  ghost predicate Asked(ents: seq<Ent>, r: Resources, got: Resources) {
    var cpu, mem := Last(CpuText, ents), Last(MemText, ents);
    && (cpu.Some? ==> IsNumber(cpu.value, 0x1_0000_0000) && got.cpus == NumberOf(cpu.value))
    && (cpu.None? ==> got.cpus == r.cpus)
    && got.mem == (if mem.Some? then mem.value else r.mem)
    && (got.net <==> r.net || SaysNet(ents))
  }

  /** What one entry does. */
  lemma {:induction false} EntryMeans(ent: Ent, r: Resources)
    ensures var got := ProcessName(FieldOf(ent), r);
            && (got.Malformed? <==> !Good(ent))
            && (Good(ent) ==> Asked([ent], r, if got.Inside? then got.rscs else r))
  {
    hide ProcessName, IsDecimal, IsSize, CpuPrefix, MemPrefix, NetName, NumberOf, Encode;
    var name := FieldOf(ent);
    PrefixesApart();
    assert [ent][..0] == [];
    assert Last(CpuText, [ent]) == CpuText(ent) && Last(MemText, [ent]) == MemText(ent);
    assert SaysNet([ent]) <==> name == NetName() by { if name == NetName() { assert FieldOf([ent][0]) == NetName(); } }
    if CpuPrefix() <= name {
      assert name[11] == 99 && name == CpuPrefix() + name[|CpuPrefix()|..];
      CpuName(name[|CpuPrefix()|..], r);
    } else if MemPrefix() <= name {
      assert name[11] == 109 && name == MemPrefix() + name[|MemPrefix()|..];
      MemName(name[|MemPrefix()|..], r);
    } else if name == NetName() {
      NetIs(r);
    } else {
      OtherName(name, r);
    }
  }

  lemma {:induction false} AskedTwice(ents: seq<Ent>, r: Resources, mid: Resources, got: Resources)
    requires ents != [] && Asked([ents[0]], r, mid) && Asked(ents[1..], mid, got)
    ensures Asked(ents, r, got)
  {
    hide IsDecimal, NumberOf, CpuText, MemText, NetName;
    LastFront(CpuText, ents);
    LastFront(MemText, ents);
    assert [ents[0]][..0] == [];
    assert Last(CpuText, [ents[0]]) == CpuText(ents[0]) && Last(MemText, [ents[0]]) == MemText(ents[0]);
    NetTwice(ents);
  }

  lemma NetTwice(ents: seq<Ent>)
    requires ents != []
    ensures SaysNet(ents) <==> SaysNet([ents[0]]) || SaysNet(ents[1..])
  {
    hide NetName;
    if SaysNet(ents) {
      var i :| 0 <= i < |ents| && FieldOf(ents[i]) == NetName();
      if i == 0 { assert FieldOf([ents[0]][0]) == NetName(); } else { assert FieldOf(ents[1..][i - 1]) == NetName(); }
    }
    if SaysNet(ents[1..]) {
      var j :| 0 <= j < |ents[1..]| && FieldOf(ents[1..][j]) == NetName();
      assert FieldOf(ents[j + 1]) == NetName();
    }
    if SaysNet([ents[0]]) { assert FieldOf(ents[0]) == NetName(); }
  }

  lemma ScanNothing(w: Walked, r: Resources)
    ensures w.ents == [] ==> FullScan(w, r) == (if w.clean then Some(r) else None) && Asked(w.ents, r, r)
  {
    hide NetName, CpuText, MemText, IsNumber, NumberOf, ProcessName;
  }

  /** The full scan succeeds if and only if the archive can be read and no name below
      `cpu/` or `mem/` is bad; then the last names of each kind decide. */
  lemma {:induction false} FullScanMeans(w: Walked, r: Resources)
    ensures FullScan(w, r).Some? <==> w.clean && AllGood(w.ents)
    ensures FullScan(w, r).Some? ==> Asked(w.ents, r, FullScan(w, r).value)
    decreases |w.ents|
  {
    hide ProcessName, Good, Asked, FieldOf, FullScan;
    ScanNothing(w, r);
    if w.ents != [] {
      var e, rest := w.ents[0], w.(ents := w.ents[1..]);
      FullStep(e, rest, r);
      assert [e] + rest.ents == w.ents;
      var got := ProcessName(FieldOf(e), r);
      EntryMeans(e, r);
      assert AllGood(w.ents) <==> Good(e) && AllGood(rest.ents);
      if !got.Malformed? {
        var mid := if got.Inside? then got.rscs else r;
        FullScanMeans(rest, mid);
        if FullScan(rest, mid).Some? { AskedTwice(w.ents, r, mid, FullScan(rest, mid).value); }
      }
    }
  }

  /** The answer of `vm_resources_get`, for resource names that stand together: two CPUs,
      512M and no network unless a name says otherwise. */
  lemma {:induction false} ResourcesMean(w: Walked)
    requires w.clean && Contiguous(w.ents)
    ensures var got := EarlyScan(w, Defaults(), false);
            && (got.Some? <==> AllGood(w.ents))
            && (got.Some? ==> Asked(w.ents, Resources(2, Encode("512M"), false), got.value))
  {
    hide EarlyScan, FullScan, Asked, Contiguous, AllGood, Encode;
    EarlyIsFull(w, Defaults(), false);
    FullScanMeans(w, Defaults());
  }

  /** The name looked at is the archived name, unless alignment zeros follow it. */
  lemma {:induction false} FieldIsName(props: Props, off: nat, call: Call)
    requires Valid(call) && AlignSeek(props, off, call) == 0
    ensures FieldOf(EntOf(props, off, call)) == Name(call)
  {
    hide Name, AlignSeek, Valid;
    var z := Zeros(1);
    assert z == [0];
    assert (Name(call) + z)[..|Name(call)|] == Name(call);
  }
}
