/** The archive writer of src/cpio/src/lib.rs. The functions say which bytes each
    call appends; the class keeps `off`, `ino` and the output as the source does. */
module Cpio {
  import opened Strings
  import opened Newc
  import opened Padding
  import opened ArchiveName

  datatype Props = Props(
    initialIno: U32,
    dataAlign: U32,
    namesizeMax: U32,
    initialDataOff: nat,
    fixedMtime: Option<U32>,
    fixedUid: Option<U32>,
    fixedGid: Option<U32>)

  const DEFAULT_PROPS := Props(0, 0, PATH_MAX, 0, None, None, None)

  /** What `stat` reports, with the device number already split. */
  datatype Stat = Stat(mode: U32, uid: U32, gid: U32, nlink: nat, mtime: int, rmajor: U32, rminor: U32, size: nat)

  predicate FitsU32(n: int) { 0 <= n < 0x1_0000_0000 }

  /** `ArchiveMd::from`; None when a number does not fit the format. */
  function MdFrom(props: Props, s: Stat): Option<Md>
  {
    var kind := TypeOf(s.mode);
    var device := kind == IFBLK || kind == IFCHR;
    var nlink := if kind == IFREG then 1 else s.nlink;
    var mtime := if props.fixedMtime.Some? then props.fixedMtime.value else s.mtime;
    if FitsU32(mtime) && FitsU32(nlink) && FitsU32(s.size) then
      Some(Md(nlink, s.mode,
              if props.fixedUid.Some? then props.fixedUid.value else s.uid,
              if props.fixedGid.Some? then props.fixedGid.value else s.gid,
              mtime, if device then s.rmajor else 0, if device then s.rminor else 0, s.size))
    else None
  }

  /** Metadata that shows what `stat` reports: regular files count one link, only
      devices have device numbers. */
  predicate ShowsStat(md: Md, s: Stat) {
    var kind := s.mode / 4096 % 16;
    && md.mode == s.mode && md.uid == s.uid && md.gid == s.gid && md.mtime == s.mtime && md.len == s.size
    && md.nlink == (if kind == 8 then 1 else s.nlink)
    && md.rmajor == (if kind == 6 || kind == 2 then s.rmajor else 0)
    && md.rminor == (if kind == 6 || kind == 2 then s.rminor else 0)
  }

  /** `ArchiveMd::from` fails if and only if a number in use does not fit; otherwise it
      shows the file, with the owner and the time of the properties in place. */
  lemma MdFromExact(props: Props, s: Stat)
    ensures MdFrom(props, s).Some? <==>
            && FitsU32(s.size) && (s.mode / 4096 % 16 == 8 || FitsU32(s.nlink))
            && (props.fixedMtime.Some? || FitsU32(s.mtime))
    ensures MdFrom(props, s).Some? ==>
              ShowsStat(MdFrom(props, s).value, s.(
                uid := if props.fixedUid.Some? then props.fixedUid.value else s.uid,
                gid := if props.fixedGid.Some? then props.fixedGid.value else s.gid,
                mtime := if props.fixedMtime.Some? then props.fixedMtime.value else s.mtime))
  {
  }

  /** One call of `archive_path`, `archive_symlink` or `archive_file`; `data` is
      what the reader of a file delivers. */
  datatype Call =
    | PathCall(path: Bytes, md: Md)
    | LinkCall(path: Bytes, md: Md, target: Bytes)
    | FileCall(path: Bytes, md: Md, data: Bytes)

  datatype Outcome = Success | InvalidInput | ShortCopy | Panic

  function Name(call: Call): Bytes { StripDot(StripRoot(call.path)) }

  /** The checks made before anything is written. */
  predicate Valid(call: Call) {
    && |Name(call)| + 1 < PATH_MAX
    && match call
       case PathCall(_, md) => !(TypeOf(md.mode) == IFREG && md.len > 0) && TypeOf(md.mode) != IFLNK
       case LinkCall(_, md, target) => |target| < PATH_MAX && TypeOf(md.mode) == IFLNK
       case FileCall(_, md, _) => TypeOf(md.mode) == IFREG
  }

  /** The reader of a non-empty file delivers exactly the announced length. */
  predicate Complete(call: Call) {
    call.FileCall? && call.md.len > 0 ==> |call.data| == call.md.len
  }

  predicate Accepted(call: Call) { Valid(call) && Complete(call) }

  function Data(call: Call): Bytes {
    match call
    case PathCall(_, _) => []
    case LinkCall(_, _, target) => target
    case FileCall(_, md, data) => if md.len > 0 then data else []
  }

  /** The `filesize` field: zero for a path, the target length for a symlink. */
  function FileSize(call: Call): U32
    requires Valid(call)
  {
    match call
    case PathCall(_, _) => 0
    case LinkCall(_, _, target) => |target|
    case FileCall(_, md, _) => md.len
  }

  /** Zeros injected behind a name of `n` bytes (terminator included) to align the
      data of a large file, unless the name field would grow too long. */
  function SeekFor(props: Props, off: nat, n: nat, len: U32): (r: nat)
    ensures r > 0 ==> n + r <= props.namesizeMax
  {
    if props.dataAlign > 0 && len > props.dataAlign then
      var pad := PadLen(props.initialDataOff + off + NEWC_HDR_LEN + n, props.dataAlign);
      if pad + n > props.namesizeMax then 0 else pad
    else 0
  }

  function AlignSeek(props: Props, off: nat, call: Call): (r: nat)
    ensures r > 0 ==> |Name(call)| + 1 + r <= props.namesizeMax
  {
    if call.FileCall? then SeekFor(props, off, |Name(call)| + 1, call.md.len) else 0
  }

  /** The name field as the header announces it. */
  function NameField(props: Props, off: nat, call: Call): (f: Bytes)
    ensures |f| == |Name(call)| + 1 + AlignSeek(props, off, call)
  {
    Name(call) + Zeros(1 + AlignSeek(props, off, call))
  }

  /** Padding behind the name field, from the running offset. */
  function NamePad(props: Props, off: nat, call: Call): nat {
    if AlignSeek(props, off, call) > 0 then 0
    else Pad4(off + NEWC_HDR_LEN + |Name(call)| + 1)
  }

  /** Where the data of an entry starts. */
  function DataOff(props: Props, off: nat, call: Call): nat {
    off + NEWC_HDR_LEN + |NameField(props, off, call)| + NamePad(props, off, call)
  }

  function DataPad(props: Props, off: nat, call: Call): nat {
    if call.PathCall? || (call.FileCall? && call.md.len == 0) then 0
    else Pad4(DataOff(props, off, call) + |Data(call)|)
  }

  function EntryHead(props: Props, off: nat, ino: U32, call: Call): (h: Bytes)
    requires Valid(call)
    ensures |h| == DataOff(props, off, call) - off
  {
    Header(ino, call.md, FileSize(call), |NameField(props, off, call)|)
    + NameField(props, off, call) + Zeros(NamePad(props, off, call))
  }

  /** All bytes one call appends. */
  function Entry(props: Props, off: nat, ino: U32, call: Call): (e: Bytes)
    requires Valid(call)
    ensures |e| == DataOff(props, off, call) - off + |Data(call)| + DataPad(props, off, call)
  {
    EntryHead(props, off, ino, call) + Data(call) + Zeros(DataPad(props, off, call))
  }

  function NextIno(ino: U32): U32 { (ino + 1) % 0x1_0000_0000 }

  const TRAILER_MD := Md(1, 0, 0, 0, 0, 0, 0, 0)

  function Trailer(off: nat): (t: Bytes)
    ensures |t| == NEWC_HDR_LEN + 11 + Pad4(off + NEWC_HDR_LEN + 11)
  {
    Header(0, TRAILER_MD, 0, 11) + (TRAILER + [0]) + Zeros(Pad4(off + NEWC_HDR_LEN + 11))
  }

  /** The `assert_eq!` of `archive_file`. */
  predicate AlignAssertHolds(props: Props, off: nat, call: Call) {
    var seek := AlignSeek(props, off, call);
    seek > 0 ==> Pad4(off + NEWC_HDR_LEN + |Name(call)| + 1 + seek) == 0
  }

  /** Data alignment, if there is any, and start of the archive agree with the
      4-byte padding. */
  predicate Aligned(props: Props) {
    props.dataAlign > 1 ==> props.dataAlign % 4 == 0 && props.initialDataOff % 4 == 0
  }

  // ---- alignment ----------------------------------------------------------

  /** The injected zeros restore 4-byte alignment, so the assertion holds and no
      further padding is needed. */
  lemma {:induction false} SeekAligns(props: Props, off: nat, call: Call)
    requires Aligned(props) && off % 4 == 0
    ensures AlignAssertHolds(props, off, call)
    ensures DataOff(props, off, call) % 4 == 0
  {
    hide Name, PadLen, DataOff;
    var n := |Name(call)| + 1;
    var seek := AlignSeek(props, off, call);
    DataOffIs(props, off, call, n, seek);
    if seek > 0 {
      PadToFour(props.initialDataOff + off + NEWC_HDR_LEN + n, props.dataAlign);
    }
  }

  /** Every entry ends where the next may start. */
  lemma {:induction false} EntryAligned(props: Props, off: nat, ino: U32, call: Call)
    requires Aligned(props) && off % 4 == 0 && Accepted(call)
    ensures (off + |Entry(props, off, ino, call)|) % 4 == 0
  {
    hide DataOff, Data, Valid, Complete;
    SeekAligns(props, off, call);
    EntryLength(props, off, ino, call);
  }

  lemma EntryLength(props: Props, off: nat, ino: U32, call: Call)
    requires Accepted(call) && DataOff(props, off, call) % 4 == 0
    ensures (off + |Entry(props, off, ino, call)|) % 4 == 0
  {
    hide DataOff, Valid, Entry;
  }

  /** Data alignment: the data of every file longer than a power-of-two alignment
      starts at a multiple of it in the output file, whenever the padded name
      fits. */
  lemma {:induction false} DataIsAligned(props: Props, off: nat, call: Call, k: nat)
    requires props.dataAlign == Pow2(k) && k >= 2 && props.initialDataOff % 4 == 0 && off % 4 == 0
    requires call.FileCall? && call.md.len > props.dataAlign
    requires var n := |Name(call)| + 1;
             n + PadLen(props.initialDataOff + off + NEWC_HDR_LEN + n, props.dataAlign) <= props.namesizeMax
    ensures (props.initialDataOff + DataOff(props, off, call)) % props.dataAlign == 0
  {
    hide Name, PadLen, AlignSeek, DataOff, Pow2, Pad4;
    var n := |Name(call)| + 1;
    var start := props.initialDataOff + off + NEWC_HDR_LEN + n;
    var seek := AlignSeek(props, off, call);
    SeekFits(props, off, call, n);
    DataOffIs(props, off, call, n, seek);
    PadToPow2(start, k);
    if seek == 0 { NoFurtherPad(props.initialDataOff, off + NEWC_HDR_LEN + n, k); }
    assert props.initialDataOff + DataOff(props, off, call) == start + seek;
  }

  lemma NoFurtherPad(start: nat, x: nat, k: nat)
    requires k >= 2 && start % 4 == 0 && (start + x) % Pow2(k) == 0
    ensures Pad4(x) == 0
  {
    hide Pow2;
    MultipleOfFour(start + x, k);
    assert x % 4 == 0;
    NoPadAtFour(x);
  }

  /** Zeros are injected for files larger than the alignment only, and only if the name
      field stays within its maximum. */
  lemma SeekExact(props: Props, off: nat, call: Call)
    ensures AlignSeek(props, off, call) > 0 ==>
              && call.FileCall? && 0 < props.dataAlign < call.md.len
              && |Name(call)| + 1 + AlignSeek(props, off, call) <= props.namesizeMax
              && AlignSeek(props, off, call) < props.dataAlign
  {
    hide Name, PadLen;
  }

  lemma SeekFits(props: Props, off: nat, call: Call, n: nat)
    requires call.FileCall? && 0 < props.dataAlign < call.md.len && n == |Name(call)| + 1
    requires n + PadLen(props.initialDataOff + off + NEWC_HDR_LEN + n, props.dataAlign) <= props.namesizeMax
    ensures AlignSeek(props, off, call) == PadLen(props.initialDataOff + off + NEWC_HDR_LEN + n, props.dataAlign)
  {
    hide PadLen, StripRoot, StripDot;
  }

  lemma DataOffIs(props: Props, off: nat, call: Call, n: nat, seek: nat)
    requires n == |Name(call)| + 1 && seek == AlignSeek(props, off, call)
    ensures DataOff(props, off, call) == off + NEWC_HDR_LEN + n + seek + (if seek > 0 then 0 else Pad4(off + NEWC_HDR_LEN + n))
  {
    hide Zeros, StripRoot, StripDot, AlignSeek, Pad4;
  }

  lemma NoPadAtFour(x: nat)
    requires x % 4 == 0
    ensures Pad4(x) == 0
  {
  }

  lemma {:induction false} MultipleOfFour(x: nat, k: nat)
    requires k >= 2 && x % Pow2(k) == 0
    ensures x % 4 == 0
  {
    var m := Pow2(k - 2);
    assert Pow2(k) == 4 * m by { assert Pow2(k - 1) == 2 * m; }
    var q := x / Pow2(k);
    assert x == (4 * m) * q == 4 * (m * q);
  }

  /** The guard of `archive_loop` (src/bin/dracut-cpio.rs) tests only the sum of
      data alignment and start offset. It lets an alignment through for which the
      assertion of `archive_file` fails. */
  predicate LoopGuard(props: Props) {
    props.dataAlign > 0 ==> (props.initialDataOff + props.dataAlign) % 4 == 0
  }

  lemma {:induction false} GuardIsNotEnough()
    ensures var props := DEFAULT_PROPS.(dataAlign := 2, initialDataOff := 2);
            var call := FileCall([97, 98], Md(1, 0x8000, 0, 0, 0, 0, 0, 3), [1, 2, 3]);
            LoopGuard(props) && Accepted(call) && !AlignAssertHolds(props, 0, call)
  {
    var props := DEFAULT_PROPS.(dataAlign := 2, initialDataOff := 2);
    var call := FileCall([97, 98], Md(1, 0x8000, 0, 0, 0, 0, 0, 3), [1, 2, 3]);
    hide And, PadLen;
    assert Name(call) == [97, 98];
    assert Pow2(1) == 2;
    AndOnes(115, 1);
    PadCases(115, 2);
    assert SeekFor(props, 0, 3, 3) == 1;
    assert AlignSeek(props, 0, call) == 1;
  }

  // ---- whole archives -----------------------------------------------------

  predicate AllAccepted(calls: seq<Call>) {
    forall i :: 0 <= i < |calls| ==> Accepted(calls[i])
  }

  /** The bytes a sequence of accepted calls appends from `off` and `ino` on. */
  function Archive(props: Props, off: nat, ino: U32, calls: seq<Call>): Bytes
    requires AllAccepted(calls)
    decreases |calls|
  {
    if calls == [] then []
    else
      hide Entry;
      assert Accepted(calls[0]);
      var e := Entry(props, off, ino, calls[0]);
      e + Archive(props, off + |e|, NextIno(ino), calls[1..])
  }

  lemma {:induction false} ArchiveAligned(props: Props, off: nat, ino: U32, calls: seq<Call>)
    requires Aligned(props) && off % 4 == 0
    requires AllAccepted(calls)
    ensures (off + |Archive(props, off, ino, calls)|) % 4 == 0
    decreases |calls|
  {
    hide *;
    ArchiveStep(props, off, ino, calls);
    if calls != [] {
      FirstAccepted(calls);
      EntryAligned(props, off, ino, calls[0]);
      ArchiveAligned(props, off + |Entry(props, off, ino, calls[0])|, NextIno(ino), calls[1..]);
    }
  }

  /** Appending one more call. */
  lemma {:induction false} ArchiveSnoc(props: Props, off: nat, ino: U32, calls: seq<Call>, call: Call)
    requires Accepted(call) && AllAccepted(calls)
    ensures var a := Archive(props, off, ino, calls);
            var ino1 := (ino + |calls|) % 0x1_0000_0000;
            Archive(props, off, ino, calls + [call]) == a + Entry(props, off + |a|, ino1, call)
    decreases |calls|
  {
    hide *;
    AcceptedParts(calls, call);
    if calls == [] {
      assert calls + [call] == [call];
      ArchiveStep(props, off, ino, [call]);
      ArchiveStep(props, off, ino, []);
      InoMod(ino);
      var e := Entry(props, off, ino, call);
      ArchiveStep(props, off + |e|, NextIno(ino), []);
      assert [] + e == e + [] == e;
      assert [call][1..] == [];
    } else {
      var e := Entry(props, off, ino, calls[0]);
      var more, all := calls[1..], calls + [call];
      assert all[1..] == more + [call] && all[0] == calls[0];
      ArchiveStep(props, off, ino, calls);
      ArchiveStep(props, off, ino, all);
      ArchiveSnoc(props, off + |e|, NextIno(ino), more, call);
      InoStep(ino, |calls|);
      var a := Archive(props, off + |e|, NextIno(ino), more);
      Joined(e, a, Entry(props, off + |e| + |a|, (ino + |calls|) % 0x1_0000_0000, call));
    }
  }

  lemma FirstAccepted(calls: seq<Call>)
    requires AllAccepted(calls) && calls != []
    ensures Accepted(calls[0]) && Valid(calls[0])
  {
    hide Valid, Complete;
  }

  lemma AcceptedParts(calls: seq<Call>, call: Call)
    requires Accepted(call) && AllAccepted(calls)
    ensures AllAccepted(calls + [call]) && Valid(call)
    ensures calls != [] ==> AllAccepted(calls[1..]) && Accepted(calls[0]) && Valid(calls[0])
  {
    hide Valid, Complete;
  }

  lemma InoMod(ino: U32)
    ensures (ino + 0) % 0x1_0000_0000 == ino
  {
  }

  /** The definition of `Archive`, one entry at a time. */
  lemma {:induction false} ArchiveStep(props: Props, off: nat, ino: U32, calls: seq<Call>)
    requires AllAccepted(calls)
    ensures calls == [] ==> Archive(props, off, ino, calls) == []
    ensures calls != [] ==>
            && Valid(calls[0]) && AllAccepted(calls[1..])
            && var e := Entry(props, off, ino, calls[0]);
               Archive(props, off, ino, calls) == e + Archive(props, off + |e|, NextIno(ino), calls[1..])
  {
    hide Entry, Valid, Complete, NextIno;
    if calls != [] { assert Accepted(calls[0]); }
  }

  lemma InoStep(ino: U32, n: nat)
    requires n > 0
    ensures (NextIno(ino) + (n - 1)) % 0x1_0000_0000 == (ino + n) % 0x1_0000_0000
  {
    if ino + 1 == 0x1_0000_0000 {
      assert ino + n == 0x1_0000_0000 + (n - 1);
    }
  }

  // ---- runs that panic ----------------------------------------------------

  /** The assertion of `archive_file` holds at every entry of an archive. */
  ghost predicate RunsThrough(props: Props, calls: seq<Call>)
    requires AllAccepted(calls)
  {
    forall i :: 0 <= i < |calls| ==> HoldsAt(props, calls[..i], calls[i])
  }

  /** ... and at one more entry behind `calls`. */
  predicate HoldsAt(props: Props, calls: seq<Call>, call: Call) {
    AllAccepted(calls) ==> AlignAssertHolds(props, |Archive(props, 0, props.initialIno, calls)|, call)
  }

  ghost predicate NeverPanics(props: Props) {
    forall calls :: AllAccepted(calls) ==> RunsThrough(props, calls)
  }

  /** Exactly which alignments are safe behind the guard: those that align nothing,
      because they are 0 or 1 or no file can be longer, and the multiples of four. */
  predicate SafeAlign(props: Props) {
    props.dataAlign <= 1 || props.dataAlign == 0xFFFF_FFFF || props.dataAlign % 4 == 0
  }

  lemma {:induction false} GuardExact(props: Props)
    requires LoopGuard(props) && props.namesizeMax >= 6
    ensures NeverPanics(props) <==> SafeAlign(props)
  {
    hide AlignAssertHolds, AllAccepted, Archive, HoldsAt;
    if SafeAlign(props) {
      forall calls | AllAccepted(calls) ensures RunsThrough(props, calls) { SafeRuns(props, calls); }
    } else {
      var calls, call := PanicAt(props, Md(2, 0x4000, 0, 0, 0, 0, 0, 0), Md(1, 0x8000, 0, 0, 0, 0, 0, props.dataAlign + 1));
      AcceptedParts(calls, call);
      var n := |calls|;
      assert (calls + [call])[..n] == calls && (calls + [call])[n] == call;
    }
  }

  lemma {:induction false} SafeRuns(props: Props, calls: seq<Call>)
    requires LoopGuard(props) && SafeAlign(props) && AllAccepted(calls)
    ensures RunsThrough(props, calls)
  {
    hide AlignAssertHolds, Accepted, Archive;
    forall i | 0 <= i < |calls| ensures HoldsAt(props, calls[..i], calls[i]) { SafeAt(props, calls[..i], calls[i]); }
  }

  lemma {:induction false} SafeAt(props: Props, calls: seq<Call>, call: Call)
    requires LoopGuard(props) && SafeAlign(props)
    ensures HoldsAt(props, calls, call)
  {
    hide Archive, AllAccepted, AlignAssertHolds, Name;
    if AllAccepted(calls) {
      var off := |Archive(props, 0, props.initialIno, calls)|;
      if props.dataAlign == 0xFFFF_FFFF {
        TooLongToAlign(props, off, call);
      } else {
        ArchiveAligned(props, 0, props.initialIno, calls);
        SeekAligns(props, off, call);
      }
    }
  }

  lemma TooLongToAlign(props: Props, off: nat, call: Call)
    requires props.dataAlign == 0xFFFF_FFFF
    ensures AlignAssertHolds(props, off, call)
  {
    hide Name, PadLen;
  }

  /** Any start that is not a multiple of four makes a run panic, in an archive of
      less than 2^35 bytes: the entry whose header and name end a single byte before
      a multiple of the next power of two. The entries before it are directories. */
  lemma {:induction false} PanicAt(props: Props, dirMd: Md, fileMd: Md) returns (calls: seq<Call>, call: Call)
    requires props.initialDataOff % 4 != 0 && 1 < props.dataAlign < 0xFFFF_FFFF && props.namesizeMax >= 6
    requires TypeOf(dirMd.mode) == IFDIR && TypeOf(fileMd.mode) == IFREG && fileMd.len == props.dataAlign + 1
    ensures AllAccepted(calls) && AllDirs(calls, dirMd) && IsFile(call, fileMd) && Accepted(call)
    ensures !HoldsAt(props, calls, call) && |Archive(props, 0, props.initialIno, calls)| < 0x8_0000_0000
  {
    hide Name, PadLen, Pow2, Accepted, AlignSeek, Archive, AllAccepted, AllDirs, Letters, Zeros, TypeOf;
    var n, off := OneShort(props);
    calls := Reach(props, off, dirMd);
    call := NamedFile(n - 1, fileMd);
    SeekFits(props, off, call, n);
    assert AlignSeek(props, off, call) == 1;
    assert (off + NEWC_HDR_LEN + n + 1) % 4 != 0;
  }

  /** Names of one letter, repeated: the directories and files of such runs. */
  function Letters(n: nat, c: Byte): (l: Bytes)
    ensures |l| == n && forall i :: 0 <= i < n ==> l[i] == c
  {
    if n == 0 then [] else Letters(n - 1, c) + [c]
  }

  predicate AllDirs(calls: seq<Call>, md: Md) {
    forall i :: 0 <= i < |calls| ==> IsDir(calls[i], md)
  }

  predicate IsDir(call: Call, md: Md) { 0 < |call.path| < 114 && call == PathCall(Letters(|call.path|, 97), md) }

  predicate IsFile(call: Call, md: Md) {
    0 < |call.path| < 5 && call == FileCall(Letters(|call.path|, 98), md, Zeros(md.len))
  }

  lemma {:induction false} OneShort(props: Props) returns (n: nat, off: nat)
    requires props.dataAlign > 1
    ensures 2 <= n <= 5 && off % 4 == 0 && 112 <= off < 112 + 4 * props.dataAlign
    ensures (props.initialDataOff + off + NEWC_HDR_LEN + n + 1) % 4 == 0
    ensures PadLen(props.initialDataOff + off + NEWC_HDR_LEN + n, props.dataAlign) == 1
  {
    hide PadLen, Pow2;
    var k := PowerAbove(props.dataAlign);
    var p, start := Pow2(k), props.initialDataOff;
    n := NameTo3(start);
    var base := start + NEWC_HDR_LEN + n + 112;
    PowerIsFour(k);
    var extra := ShortOf(base, p);
    off := 112 + extra;
    PadOneShort(base + extra, k, props.dataAlign);
    assert props.initialDataOff + off + NEWC_HDR_LEN + n == base + extra;
    FourAfter(base, extra);
  }

  lemma PowerIsFour(k: nat)
    requires k >= 2
    ensures Pow2(k) % 4 == 0
  {
    var m := Pow2(k - 2);
    assert Pow2(k) == 4 * m by { assert Pow2(k - 1) == 2 * m; }
    hide Pow2;
    ModUnique(4 * m, 4, m, 0);
  }

  lemma NameTo3(start: nat) returns (n: nat)
    ensures 2 <= n <= 5 && (start + NEWC_HDR_LEN + n + 112) % 4 == 3
  {
    n := 5 - start % 4;
  }

  /** How far it is to the last place before a multiple of `p`. */
  lemma {:induction false} ShortOf(base: nat, p: nat) returns (extra: nat)
    requires p > 0 && p % 4 == 0 && base % 4 == 3
    ensures extra < p && (base + extra) % p == p - 1 && extra % 4 == 0
  {
    DivParts(base, p);
    extra := ShortFrom(base, p, base / p, base % p);
  }

  lemma {:induction false} ShortFrom(base: nat, p: nat, q: nat, r: nat) returns (extra: nat)
    requires p % 4 == 0 && base % 4 == 3 && base == p * q + r && r < p
    ensures extra < p && (base + extra) % p == p - 1 && extra % 4 == 0
  {
    var t := p * q;
    extra := p - 1 - r;
    assert extra % 4 == 0 by {
      FourTimes(p, q);
      FourDistance(base, p, t, r);
    }
    ModUnique(base + extra, p, q, p - 1);
  }

  lemma DivParts(x: nat, p: nat)
    requires p > 0
    ensures x == p * (x / p) + x % p && 0 <= x % p < p
  {
  }

  lemma FourTimes(p: nat, q: nat)
    requires p % 4 == 0
    ensures (p * q) % 4 == 0
  {
    var m := p / 4;
    assert p * q == 4 * (m * q);
  }

  lemma FourAfter(base: nat, extra: nat)
    requires base % 4 == 3 && extra % 4 == 0
    ensures (base + extra + 1) % 4 == 0 && (112 + extra) % 4 == 0
  {
  }

  lemma FourDistance(base: nat, p: nat, t: nat, r: nat)
    requires t % 4 == 0 && p % 4 == 0 && base == t + r && base % 4 == 3 && r < p
    ensures (p - 1 - r) % 4 == 0
  {
  }

  /** Every offset that is a multiple of four, from one entry on, is reached by
      directories alone. */
  lemma {:induction false} Reach(props: Props, off: nat, md: Md) returns (calls: seq<Call>)
    requires off % 4 == 0 && off >= 112 && TypeOf(md.mode) == IFDIR
    ensures AllAccepted(calls) && AllDirs(calls, md) && |Archive(props, 0, props.initialIno, calls)| == off
    decreases off
  {
    hide Archive, Entry, Accepted, AllAccepted, Name, Valid, IsDir, TypeOf;
    var before: seq<Call> := [];
    var size := off;
    NoCalls(props);
    if off >= 224 {
      before := Reach(props, off - 112, md);
      size := 112;
    }
    var ino := (props.initialIno + |before|) % 0x1_0000_0000;
    var call := NamedDir(props, off - size, ino, size, md);
    calls := before + [call];
    AcceptedParts(before, call);
    ArchiveSnoc(props, 0, props.initialIno, before, call);
  }

  lemma NoCalls(props: Props)
    ensures AllAccepted([]) && Archive(props, 0, props.initialIno, []) == []
  {
  }

  lemma {:induction false} NamedDir(props: Props, off: nat, ino: U32, size: nat, md: Md) returns (call: Call)
    requires off % 4 == 0 && size % 4 == 0 && 112 <= size < 224 && TypeOf(md.mode) == IFDIR
    ensures IsDir(call, md) && Accepted(call) && |Entry(props, off, ino, call)| == size
  {
    hide StripRoot, StripDot, Entry, TypeOf;
    var n := size - NEWC_HDR_LEN - 1;
    call := PathCall(Letters(n, 97), md);
    LettersName(n, 97);
    assert |Name(call)| == n;
    PathEntry(props, off, ino, call);
  }

  lemma LettersName(n: nat, c: Byte)
    requires n > 0 && (c == 97 || c == 98)
    ensures StripDot(StripRoot(Letters(n, c))) == Letters(n, c)
  {
    assert Letters(n, c)[0] == c;
  }

  lemma NamedFile(k: nat, md: Md) returns (call: Call)
    requires 1 <= k <= 4 && md.len > 0 && TypeOf(md.mode) == IFREG
    ensures IsFile(call, md) && |Name(call)| == k && Accepted(call)
  {
    hide StripRoot, StripDot, TypeOf;
    call := FileCall(Letters(k, 98), md, Zeros(md.len));
    LettersName(k, 98);
  }

  // ---- the writer ---------------------------------------------------------

  /** `ArchiveState` together with the writer it is used with. */
  class ArchiveState {
    const props: Props
    var off: nat
    var ino: U32
    var out: Bytes
    ghost var calls: seq<Call>

    /** Everything written is the archive of the calls accepted so far; `off`
        counts it, and the inode number has moved once per entry. */
    ghost predicate Consistent()
      reads this
    {
      && AllAccepted(calls)
      && out == Archive(props, 0, props.initialIno, calls)
      && off == |out|
      && ino == (props.initialIno + |calls|) % 0x1_0000_0000
    }

    constructor (props: Props)
      ensures this.props == props && Consistent() && calls == [] && out == []
    {
      this.props := props;
      off, ino, out, calls := 0, props.initialIno, [], [];
    }

    method WriteHeader(md: Md, filesize: U32, namesize: U32)
      modifies this`off, this`ino, this`out
      ensures out == old(out) + Header(old(ino), md, filesize, namesize)
      ensures off == old(off) + NEWC_HDR_LEN && ino == NextIno(old(ino))
    {
      out := out + Header(ino, md, filesize, namesize);
      ino := NextIno(ino);
      off := off + NEWC_HDR_LEN;
    }

    /** The name, its terminator and the padding. */
    method WriteName(fname: Bytes, seekLen: nat)
      modifies this`off, this`out
      ensures out == old(out) + fname + Zeros(seekLen)
      ensures off == old(off) + |fname| + seekLen
    {
      out := out + fname;
      off := off + |fname|;
      var z := Zeros(seekLen);
      out := out + z;
      off := off + seekLen;
    }

    method WriteData(data: Bytes)
      modifies this`off, this`out
      ensures var pad := Pad4(old(off) + |data|);
              out == old(out) + data + Zeros(pad) && off == old(off) + |data| + pad
    {
      out := out + data;
      off := off + |data|;
      var dpadLen := PadLen(off, 4);
      PadFour(off);
      out := out + Zeros(dpadLen);
      off := off + dpadLen;
    }

    /** `archive_path`. */
    method ArchivePath(path: Bytes, md: Md) returns (r: Outcome)
      requires Consistent()
      modifies this
      ensures Consistent()
      ensures var call := PathCall(path, md);
              && r == (if Accepted(call) then Success else InvalidInput)
              && calls == old(calls) + (if r == Success then [call] else [])
    {
      hide Entry, Header, Zeros, Archive, Valid, Complete, AllAccepted, Name, TrimPrefixes, PadLen, Pad4, NextIno;
      ghost var call := PathCall(path, md);
      ValidPath(call);
      var fname := TrimPrefixes(path);
      if fname.None? {
        return InvalidInput;
      }
      if (TypeOf(md.mode) == IFREG && md.len > 0) || TypeOf(md.mode) == IFLNK {
        return InvalidInput;
      }
      WriteHeader(md, 0, |fname.value| + 1);
      var seekLen := 1;
      PadFour(off + |fname.value| + seekLen);
      seekLen := seekLen + PadLen(off + |fname.value| + seekLen, 4);
      WriteName(fname.value, seekLen);
      PathEntry(props, old(off), old(ino), call);
      Joined3(old(out), Header(old(ino), md, 0, |fname.value| + 1), fname.value, Zeros(seekLen));
      calls := calls + [call];
      Extend(props, old(calls), call);
      return Success;
    }

    /** `archive_symlink`. */
    method ArchiveSymlink(path: Bytes, md: Md, target: Bytes) returns (r: Outcome)
      requires Consistent()
      modifies this
      ensures Consistent()
      ensures var call := LinkCall(path, md, target);
              && r == (if Accepted(call) then Success else InvalidInput)
              && calls == old(calls) + (if r == Success then [call] else [])
    {
      hide Entry, EntryHead, Header, Zeros, Archive, Valid, Complete, AllAccepted, Name, TrimPrefixes, PadLen, Pad4, NextIno;
      ghost var call := LinkCall(path, md, target);
      ValidLink(call);
      var fname := TrimPrefixes(path);
      if fname.None? || |target| >= PATH_MAX {
        return InvalidInput;
      }
      if TypeOf(md.mode) != IFLNK {
        return InvalidInput;
      }
      WriteHeader(md, |target|, |fname.value| + 1);
      var seekLen := 1;
      PadFour(off + |fname.value| + seekLen);
      seekLen := seekLen + PadLen(off + |fname.value| + seekLen, 4);
      WriteName(fname.value, seekLen);
      LinkEntry(props, old(off), old(ino), call);
      ghost var head := EntryHead(props, old(off), old(ino), call);
      Joined3(old(out), Header(old(ino), md, |target|, |fname.value| + 1), fname.value, Zeros(seekLen));
      assert out == old(out) + head;
      WriteData(target);
      Joined3(old(out), head, target, Zeros(Pad4(old(off) + |head| + |target|)));
      calls := calls + [call];
      Extend(props, old(calls), call);
      return Success;
    }

    /** Header and name of a file, unless the alignment assertion fails. */
    method WriteFileHead(ghost call: Call, fname: Bytes, md: Md) returns (ok: bool)
      requires Valid(call) && call.FileCall? && call.md == md && Name(call) == fname
      modifies this`off, this`ino, this`out
      ensures ok == AlignAssertHolds(props, old(off), call)
      ensures ok ==>
                var head := EntryHead(props, old(off), old(ino), call);
                out == old(out) + head && off == old(off) + |head| && ino == NextIno(old(ino))
    {
      hide EntryHead, Header, Zeros, Valid, Name, AlignSeek, AlignAssertHolds, PadLen, Pad4, NextIno;
      ValidFile(call);
      var dataAlignSeek := DataAlignSeek(fname, md);
      SeekOf(props, off, call, fname);
      AssertOf(props, off, call);
      WriteHeader(md, md.len, |fname| + 1 + dataAlignSeek);
      var seekLen := 1;
      if dataAlignSeek > 0 {
        seekLen := seekLen + dataAlignSeek;
        PadFour(off + |fname| + seekLen);
        if PadLen(off + |fname| + seekLen, 4) != 0 {
          return false;
        }
      } else {
        PadFour(off + |fname| + seekLen);
        seekLen := seekLen + PadLen(off + |fname| + seekLen, 4);
      }
      WriteName(fname, seekLen);
      FileEntryHead(props, old(off), old(ino), call, dataAlignSeek, seekLen);
      Joined3(old(out), Header(old(ino), md, md.len, |fname| + 1 + dataAlignSeek), fname, Zeros(seekLen));
      return true;
    }

    /** `archive_file`. A short copy and a failed alignment assertion are found
        after the header has gone out. */
    method ArchiveFile(path: Bytes, md: Md, data: Bytes) returns (r: Outcome)
      requires Consistent()
      modifies this
      ensures var call := FileCall(path, md, data);
              && r == (if !Valid(call) then InvalidInput
                       else if !AlignAssertHolds(props, old(off), call) then Panic
                       else if !Complete(call) then ShortCopy else Success)
              && (r == Success || r == InvalidInput ==>
                  Consistent() && calls == old(calls) + (if r == Success then [call] else []))
    {
      hide Entry, EntryHead, Header, Zeros, Archive, Valid, AllAccepted, Name, TrimPrefixes, AlignSeek, AlignAssertHolds, PadLen, Pad4, NextIno;
      ghost var call := FileCall(path, md, data);
      ValidFile(call);
      var fname := TrimPrefixes(path);
      if fname.None? {
        return InvalidInput;
      }
      if TypeOf(md.mode) != IFREG {
        return InvalidInput;
      }
      var ok := WriteFileHead(call, fname.value, md);
      if !ok {
        return Panic;
      }
      if md.len > 0 {
        if |data| != md.len {
          out := out + data;
          return ShortCopy;
        }
        WriteData(data);
      }
      FileTail(props, old(off), old(ino), call, old(out), out);
      calls := calls + [call];
      Extend(props, old(calls), call);
      return Success;
    }

    /** Zeros to inject for data alignment, if the name field may grow that far. */
    method DataAlignSeek(fname: Bytes, md: Md) returns (seek: nat)
      ensures seek == SeekFor(props, off, |fname| + 1, md.len)
    {
      hide PadLen;
      seek := 0;
      if props.dataAlign > 0 && md.len > props.dataAlign {
        var len := PadLen(props.initialDataOff + off + NEWC_HDR_LEN + |fname| + 1, props.dataAlign);
        if len + |fname| + 1 <= props.namesizeMax {
          seek := len;
        }
      }
    }

    /** `archive_trailer`. */
    method ArchiveTrailer() returns (length: nat)
      requires Consistent()
      modifies this`off, this`out
      ensures out == old(out) + Trailer(old(off))
      ensures length == off == |out|
    {
      hide Header, Zeros, PadLen, Pad4, Archive, AllAccepted;
      out := out + Header(0, TRAILER_MD, 0, 11);
      off := off + NEWC_HDR_LEN;
      PadFour(off + 11);
      var paddingLen := PadLen(off + 11, 4);
      out := out + (TRAILER + [0]) + Zeros(paddingLen);
      off := off + 11 + paddingLen;
      Joined3(old(out), Header(0, TRAILER_MD, 0, 11), TRAILER + [0], Zeros(paddingLen));
      return off;
    }
  }

  // ---- byte-level glue ----------------------------------------------------

  lemma {:induction false} ZerosSum(a: nat, b: nat)
    ensures Zeros(a) + Zeros(b) == Zeros(a + b)
  {
  }

  lemma {:induction false} SplitZeros(head: Bytes, name: Bytes, a: nat, b: nat)
    ensures head + (name + Zeros(a)) + Zeros(b) == head + name + Zeros(a + b)
  {
    ZerosSum(a, b);
  }

  lemma Joined(a: Bytes, b: Bytes, c: Bytes)
    ensures a + b + c == a + (b + c)
  {
  }

  lemma Joined3(a: Bytes, b: Bytes, c: Bytes, d: Bytes)
    ensures a + b + c + d == a + (b + c + d)
  {
  }

  lemma ValidPath(call: Call)
    requires call.PathCall?
    ensures TrimPrefixes(call.path) == if |Name(call)| + 1 < PATH_MAX then Some(Name(call)) else None
    ensures Valid(call) <==> && |Name(call)| + 1 < PATH_MAX
                             && !(TypeOf(call.md.mode) == IFREG && call.md.len > 0) && TypeOf(call.md.mode) != IFLNK
    ensures Accepted(call) == Valid(call)
  {
    hide StripDot, StripRoot, TypeOf;
  }

  lemma ValidLink(call: Call)
    requires call.LinkCall?
    ensures TrimPrefixes(call.path) == if |Name(call)| + 1 < PATH_MAX then Some(Name(call)) else None
    ensures Valid(call) <==> |Name(call)| + 1 < PATH_MAX && |call.target| < PATH_MAX && TypeOf(call.md.mode) == IFLNK
    ensures Accepted(call) == Valid(call)
  {
    hide StripDot, StripRoot, TypeOf;
  }

  lemma ValidFile(call: Call)
    requires call.FileCall?
    ensures TrimPrefixes(call.path) == if |Name(call)| + 1 < PATH_MAX then Some(Name(call)) else None
    ensures Valid(call) <==> |Name(call)| + 1 < PATH_MAX && TypeOf(call.md.mode) == IFREG
  {
    hide StripDot, StripRoot, TypeOf;
  }

  lemma {:induction false} PathEntry(props: Props, off: nat, ino: U32, call: Call)
    requires Valid(call) && call.PathCall?
    ensures var n := Name(call);
            Entry(props, off, ino, call) ==
            Header(ino, call.md, 0, |n| + 1) + n + Zeros(1 + Pad4(off + NEWC_HDR_LEN + |n| + 1))
  {
    hide Header, Zeros, Pad4, Name;
    var n := Name(call);
    var h := EntryHead(props, off, ino, call);
    SplitZeros(Header(ino, call.md, 0, |n| + 1), n, 1, Pad4(off + NEWC_HDR_LEN + |n| + 1));
    NoData(h);
  }

  lemma {:induction false} LinkEntry(props: Props, off: nat, ino: U32, call: Call)
    requires Valid(call) && call.LinkCall?
    ensures var n := Name(call);
            var h := EntryHead(props, off, ino, call);
            && |call.target| < PATH_MAX
            && h == Header(ino, call.md, |call.target|, |n| + 1) + n + Zeros(1 + Pad4(off + NEWC_HDR_LEN + |n| + 1))
            && Entry(props, off, ino, call) == h + call.target + Zeros(Pad4(off + |h| + |call.target|))
  {
    hide Header, Zeros, Pad4, Name;
    var n := Name(call);
    SplitZeros(Header(ino, call.md, |call.target|, |n| + 1), n, 1, Pad4(off + NEWC_HDR_LEN + |n| + 1));
  }

  lemma SeekOf(props: Props, off: nat, call: Call, fname: Bytes)
    requires call.FileCall? && fname == Name(call)
    ensures AlignSeek(props, off, call) == SeekFor(props, off, |fname| + 1, call.md.len)
  {
  }

  lemma AssertOf(props: Props, off: nat, call: Call)
    ensures var seek := AlignSeek(props, off, call);
            AlignAssertHolds(props, off, call) <==>
            (seek > 0 ==> Pad4(off + NEWC_HDR_LEN + |Name(call)| + 1 + seek) == 0)
  {
  }

  lemma {:induction false} FileEntryHead(props: Props, off: nat, ino: U32, call: Call, seek: nat, seekLen: nat)
    requires Valid(call) && call.FileCall? && seek == AlignSeek(props, off, call)
    requires seekLen == 1 + seek + (if seek > 0 then 0 else Pad4(off + NEWC_HDR_LEN + |Name(call)| + 1))
    ensures var n := Name(call);
            && |n| + 1 + seek < 0x1_0000_0000
            && EntryHead(props, off, ino, call) == Header(ino, call.md, call.md.len, |n| + 1 + seek) + n + Zeros(seekLen)
  {
    hide Header, Zeros, Pad4, AlignSeek, Name;
    var n := Name(call);
    SplitZeros(Header(ino, call.md, call.md.len, |n| + 1 + seek), n, 1 + seek, seekLen - 1 - seek);
  }

  lemma NoData(h: Bytes)
    ensures h + [] + Zeros(0) == h
  {
  }

  lemma {:induction false} FileTail(props: Props, off: nat, ino: U32, call: Call, before: Bytes, after: Bytes)
    requires Accepted(call) && call.FileCall?
    requires var head := EntryHead(props, off, ino, call);
             after == if call.md.len > 0 then before + head + call.data + Zeros(Pad4(off + |head| + |call.data|))
                      else before + head
    ensures after == before + Entry(props, off, ino, call)
  {
    hide EntryHead, Zeros, Pad4, Name, Valid, NamePad, NameField;
    var head := EntryHead(props, off, ino, call);
    if call.md.len > 0 {
      Joined3(before, head, call.data, Zeros(DataPad(props, off, call)));
    } else {
      NoData(head);
    }
  }

  /** One accepted call more keeps the state consistent. */
  lemma {:induction false} Extend(props: Props, calls: seq<Call>, call: Call)
    requires Accepted(call) && AllAccepted(calls)
    ensures var a := Archive(props, 0, props.initialIno, calls);
            var ino := (props.initialIno + |calls|) % 0x1_0000_0000;
            && AllAccepted(calls + [call])
            && Archive(props, 0, props.initialIno, calls + [call]) == a + Entry(props, |a|, ino, call)
            && NextIno(ino) == (props.initialIno + |calls + [call]|) % 0x1_0000_0000
  {
    hide *;
    AcceptedParts(calls, call);
    ArchiveSnoc(props, 0, props.initialIno, calls, call);
    NextAfter(props.initialIno, |calls|);
  }

  lemma NextAfter(ino: U32, n: nat)
    ensures NextIno((ino + n) % 0x1_0000_0000) == (ino + n + 1) % 0x1_0000_0000
  {
    var m := 0x1_0000_0000;
    var q, r := (ino + n) / m, (ino + n) % m;
    assert ino + n + 1 == m * q + (r + 1);
    if r + 1 == m {
      ModUnique(ino + n + 1, m, q + 1, 0);
    } else {
      ModUnique(ino + n + 1, m, q, r + 1);
    }
  }
}
