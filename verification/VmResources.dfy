/** The resource scan of src/bin/rapido-vm.rs: CPU count, memory size and networking
    are read from entry names at the start of the initramfs. */
module VmResources {
  import opened Strings
  import opened Newc
  import opened Numbers
  import opened Walker

  datatype Resources = Resources(cpus: U32, mem: Bytes, net: bool)

  function Defaults(): Resources { Resources(2, Encode("512M"), false) }

  // ---- memory sizes -------------------------------------------------------

  predicate IsUnit(b: Byte) { b == 109 || b == 77 || b == 103 || b == 71 }

  /** A number, or a number followed by one of the letters mMgG. */
  predicate IsMemSize(s: Bytes) {
    var limit := 0x1_0000_0000_0000_0000;
    if s != [] && IsUnit(s[|s| - 1]) then ParseUnsigned(s[..|s| - 1], limit).Some?
    else ParseUnsigned(s, limit).Some?
  }

  // ---- one entry name -----------------------------------------------------

  function RscPrefix(): Bytes { Encode("rapido-rsc") }

  predicate InRsc(name: Bytes) { RscPrefix() <= name }

  datatype LineResult = Malformed | Outside | Inside(rscs: Resources)

  /** `vm_resource_line_process`. */
  function ProcessName(name: Bytes, r: Resources): LineResult
  {
    var cpu, mem := Encode("rapido-rsc/cpu/"), Encode("rapido-rsc/mem/");
    if cpu <= name then
      match ParseUnsigned(name[|cpu|..], 0x1_0000_0000)
      case None => Malformed
      case Some(n) => Inside(r.(cpus := n))
    else if mem <= name then
      if IsMemSize(name[|mem|..]) then Inside(r.(mem := name[|mem|..])) else Malformed
    else if name == Encode("rapido-rsc/net") then Inside(r.(net := true))
    else if InRsc(name) then Inside(r)
    else Outside
  }

  /** Names outside the resource paths change nothing; all others are inside or
      malformed. */
  lemma {:induction false} OutsideIff(name: Bytes, r: Resources)
    ensures ProcessName(name, r).Outside? <==> !InRsc(name)
  {
    hide Encode, IsMemSize, ParseUnsigned;
    EncodeConcat("rapido-rsc", "/cpu/");
    EncodeConcat("rapido-rsc", "/mem/");
    EncodeConcat("rapido-rsc", "/net");
    assert "rapido-rsc" + "/cpu/" == "rapido-rsc/cpu/";
    assert "rapido-rsc" + "/mem/" == "rapido-rsc/mem/";
    assert "rapido-rsc" + "/net" == "rapido-rsc/net";
  }

  // ---- the scan -----------------------------------------------------------

  function FieldOf(ent: Ent): Bytes { if ent.name == [] then [] else ent.name[..|ent.name| - 1] }

  /** Reading every entry of the archive. */
  function FullScan(w: Walked, r: Resources): Option<Resources>
    decreases |w.ents|
  {
    if w.ents == [] then if w.clean then Some(r) else None
    else
      var rest := w.(ents := w.ents[1..]);
      match ProcessName(FieldOf(w.ents[0]), r)
      case Malformed => None
      case Outside => FullScan(rest, r)
      case Inside(r1) => FullScan(rest, r1)
  }

  /** `vm_resources_get`: stop at the first entry behind the resource paths. */
  function EarlyScan(w: Walked, r: Resources, inside: bool): Option<Resources>
    decreases |w.ents|
  {
    if w.ents == [] then if w.clean then Some(r) else None
    else
      var rest := w.(ents := w.ents[1..]);
      match ProcessName(FieldOf(w.ents[0]), r)
      case Malformed => None
      case Outside => if inside then Some(r) else EarlyScan(rest, r, false)
      case Inside(r1) => EarlyScan(rest, r1, true)
  }

  method VmResourcesGet(image: Bytes) returns (r: Option<Resources>)
    ensures r == EarlyScan(Walk(image, 0), Defaults(), false)
  {
    hide ProcessName, NextFrom, Defaults;
    var rscs := Defaults();
    var walker := new ArchiveWalker(image);
    var inRapidoRscPath := false;
    while true
      invariant fresh(walker) && walker.data == image
      invariant EarlyScan(Walk(image, walker.pos), rscs, inRapidoRscPath) == EarlyScan(Walk(image, 0), Defaults(), false)
      decreases |image| - walker.pos
    {
      ghost var pos := walker.pos;
      WalkStep(image, pos);
      NextAdvances(image, pos);
      var next := walker.Next();
      if next.None? {
        break;
      }
      if next.value.None? {
        return None;
      }
      var ent := next.value.value;
      ScanStep(ent, Walk(image, walker.pos), rscs, inRapidoRscPath);
      match ProcessName(FieldOf(ent), rscs) {
        case Malformed => return None;
        case Inside(r1) =>
          rscs := r1;
          inRapidoRscPath := true;
        case Outside =>
          if inRapidoRscPath {
            break;
          }
      }
    }
    return Some(rscs);
  }

  lemma NextAdvances(s: Bytes, pos: nat)
    ensures NextFrom(s, pos).Got? ==> pos < NextFrom(s, pos).pos && pos < |s|
  {
    hide ReadMd;
  }

  lemma {:induction false} ScanStep(ent: Ent, rest: Walked, r: Resources, inside: bool)
    ensures EarlyScan(Walked([ent] + rest.ents, rest.clean), r, inside) ==
            match ProcessName(FieldOf(ent), r)
            case Malformed => None
            case Outside => if inside then Some(r) else EarlyScan(rest, r, false)
            case Inside(r1) => EarlyScan(rest, r1, true)
  {
    hide ProcessName;
    assert ([ent] + rest.ents)[1..] == rest.ents;
  }

  // ---- early exit refines the full scan -----------------------------------

  predicate EntInRsc(ent: Ent) { InRsc(FieldOf(ent)) }

  /** The resource paths stand together. */
  predicate Contiguous(ents: seq<Ent>) {
    forall i, j, k :: 0 <= i < j < k < |ents| && EntInRsc(ents[i]) && EntInRsc(ents[k]) ==> EntInRsc(ents[j])
  }

  lemma {:induction false} NothingInside(w: Walked, r: Resources)
    requires forall i :: 0 <= i < |w.ents| ==> !EntInRsc(w.ents[i])
    ensures FullScan(w, r) == if w.clean then Some(r) else None
    decreases |w.ents|
  {
    hide ProcessName, InRsc;
    if w.ents != [] {
      OutsideIff(FieldOf(w.ents[0]), r);
      assert !EntInRsc(w.ents[0]);
      NothingInside(w.(ents := w.ents[1..]), r);
    }
  }

  /** Stopping early loses nothing: when the resource paths stand together and the
      whole archive can be read, the early exit gives the result of the full scan. */
  lemma {:induction false} EarlyIsFull(w: Walked, r: Resources, inside: bool)
    requires w.clean && Contiguous(w.ents)
    requires inside && w.ents != [] && !EntInRsc(w.ents[0]) ==> forall i :: 0 <= i < |w.ents| ==> !EntInRsc(w.ents[i])
    ensures EarlyScan(w, r, inside) == FullScan(w, r)
    decreases |w.ents|
  {
    hide ProcessName, InRsc, FieldOf;
    if w.ents != [] {
      var e, rest := w.ents[0], w.(ents := w.ents[1..]);
      OutsideIff(FieldOf(e), r);
      ContiguousRest(w.ents);
      match ProcessName(FieldOf(e), r) {
        case Malformed =>
        case Outside =>
          if inside { NothingInside(w, r); } else { EarlyIsFull(rest, r, false); }
        case Inside(r1) =>
          EarlyIsFull(rest, r1, true);
      }
    }
  }

  lemma {:induction false} ContiguousRest(ents: seq<Ent>)
    requires Contiguous(ents) && ents != []
    ensures Contiguous(ents[1..])
    ensures EntInRsc(ents[0]) && |ents| > 1 && !EntInRsc(ents[1]) ==> forall i :: 0 <= i < |ents[1..]| ==> !EntInRsc(ents[1..][i])
  {
    hide EntInRsc;
    var t := ents[1..];
    forall i, j, k | 0 <= i < j < k < |t| && EntInRsc(t[i]) && EntInRsc(t[k]) ensures EntInRsc(t[j]) {
      assert t[i] == ents[i + 1] && t[j] == ents[j + 1] && t[k] == ents[k + 1];
    }
    if EntInRsc(ents[0]) && |ents| > 1 && !EntInRsc(ents[1]) {
      forall i | 0 <= i < |t| ensures !EntInRsc(t[i]) {
        assert t[i] == ents[i + 1];
      }
    }
  }

  predicate AllInside(ents: seq<Ent>) { forall i :: 0 <= i < |ents| ==> EntInRsc(ents[i]) }

  predicate NoneInside(ents: seq<Ent>) { forall i :: 0 <= i < |ents| ==> !EntInRsc(ents[i]) }

  lemma {:induction false} FullStep(ent: Ent, rest: Walked, r: Resources)
    ensures FullScan(Walked([ent] + rest.ents, rest.clean), r) ==
            match ProcessName(FieldOf(ent), r)
            case Malformed => None
            case Outside => FullScan(rest, r)
            case Inside(r1) => FullScan(rest, r1)
  {
    hide ProcessName;
    assert ([ent] + rest.ents)[1..] == rest.ents;
  }

  lemma {:induction false} BlockEnds(block: seq<Ent>, gap: Ent, rest: seq<Ent>, clean: bool, r: Resources, inside: bool)
    requires AllInside(block) && !EntInRsc(gap) && (block != [] || inside)
    ensures EarlyScan(Walked(block + ([gap] + rest), clean), r, inside) == FullScan(Walked(block, true), r)
    decreases |block|
  {
    hide ProcessName, InRsc, FieldOf, EarlyScan;
    if block == [] {
      assert block + ([gap] + rest) == [gap] + rest;
      OutsideIff(FieldOf(gap), r);
      ScanStep(gap, Walked(rest, clean), r, inside);
    } else {
      var e, more := block[0], block[1..];
      assert block == [e] + more && block + ([gap] + rest) == [e] + (more + ([gap] + rest));
      OutsideIff(FieldOf(e), r);
      ScanStep(e, Walked(more + ([gap] + rest), clean), r, inside);
      FullStep(e, Walked(more, true), r);
      match ProcessName(FieldOf(e), r) {
        case Inside(r1) => BlockEnds(more, gap, rest, clean, r1, true);
        case _ =>
      }
    }
  }

  /** What the early exit computes otherwise: the full scan up to the first gap behind
      the first block of resource paths. Whatever stands behind the gap is never
      looked at, not even a malformed entry or the end of a broken archive. */
  lemma {:induction false} GapHidesRest(pre: seq<Ent>, block: seq<Ent>, gap: Ent, rest: seq<Ent>, clean: bool, r: Resources)
    requires NoneInside(pre) && block != [] && AllInside(block) && !EntInRsc(gap)
    ensures EarlyScan(Walked(pre + block + [gap] + rest, clean), r, false) == FullScan(Walked(pre + block, true), r)
    decreases |pre|
  {
    hide ProcessName, InRsc, FieldOf, EarlyScan, FullScan;
    if pre == [] {
      assert pre + block == block && pre + block + [gap] + rest == block + ([gap] + rest);
      BlockEnds(block, gap, rest, clean, r, false);
    } else {
      var e, more := pre[0], pre[1..];
      assert pre + block == [e] + (more + block);
      assert pre + block + [gap] + rest == [e] + (more + block + [gap] + rest);
      OutsideIff(FieldOf(e), r);
      assert !EntInRsc(e);
      ScanStep(e, Walked(more + block + [gap] + rest, clean), r, false);
      FullStep(e, Walked(more + block, true), r);
      GapHidesRest(more, block, gap, rest, clean, r);
    }
  }
}
