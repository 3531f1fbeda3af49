/** `archive_loop` of src/bin/dracut-cpio.rs: a list of paths, one per line, becomes
    an archive padded to 512 bytes. */
module DracutCpio {
  import opened Strings
  import opened Newc
  import opened Padding
  import opened Cpio
  import opened Walker

  const LIST_SEPARATOR: Byte := 10

  /** A file as `stat`, `read` and `readlink` see it. */
  datatype Node = Node(stat: Stat, content: Bytes, target: Bytes)

  type Files = map<Bytes, Node>

  /** The archive call for one path of the list. */
  function CallFor(props: Props, files: Files, path: Bytes): Option<Call>
  {
    if path !in files then None
    else
      var node := files[path];
      match MdFrom(props, node.stat)
      case None => None
      case Some(md) =>
        var kind := TypeOf(md.mode);
        Some(if kind == IFREG then FileCall(path, md, node.content)
             else if kind == IFLNK then LinkCall(path, md, node.target)
             else PathCall(path, md))
  }

  function Separator(input: Bytes): (i: nat)
    ensures i <= |input| && (i < |input| ==> input[i] == LIST_SEPARATOR)
    ensures forall j :: 0 <= j < i ==> input[j] != LIST_SEPARATOR
  {
    if input == [] || input[0] == LIST_SEPARATOR then 0 else 1 + Separator(input[1..])
  }

  /** How one archive call behind `off` bytes ends: validation comes first, then the
      alignment assertion, then the copy. */
  function OutcomeOf(props: Props, off: nat, call: Call): Outcome {
    if !Valid(call) then InvalidInput
    else if !AlignAssertHolds(props, off, call) then Panic
    else if !Complete(call) then ShortCopy
    else Success
  }

  /** Where reading the list ends: at its end, with all calls accepted, or at the
      first line that fails. */
  datatype Listed = AtEnd(calls: seq<Call>) | AtFailure(panics: bool)

  /** The meaning of a list of paths behind the calls `done`: empty lines are skipped
      and the last line needs no separator. A line fails that is too long, names no
      file or cannot be archived at the offset reached. */
  function ReadList(props: Props, files: Files, input: Bytes, done: seq<Call>): (r: Listed)
    requires AllAccepted(done)
    ensures r.AtEnd? ==> AllAccepted(r.calls)
    decreases |input|
  {
    hide AlignAssertHolds, Valid, Archive, CallFor, Complete;
    if input == [] then AtEnd(done)
    else
      var i := Separator(input);
      var l := if i < |input| then i + 1 else i;
      if l >= PATH_MAX then AtFailure(false)
      else if i == 0 then ReadList(props, files, input[l..], done)
      else
        match CallFor(props, files, input[..i])
        case None => AtFailure(false)
        case Some(call) =>
          match OutcomeOf(props, |Archive(props, 0, props.initialIno, done)|, call)
          case Success => ReadList(props, files, input[l..], done + [call])
          case Panic => AtFailure(true)
          case _ => AtFailure(false)
  }

  datatype LoopResult = Written(length: nat) | Failed | Crashed

  /** The padded archive of a sequence of calls. */
  function PaddedArchive(props: Props, calls: seq<Call>): Bytes
    requires AllAccepted(calls)
  {
    var a := Archive(props, 0, props.initialIno, calls);
    a + (Trailer(|a|) + Zeros(PadLen(|a| + |Trailer(|a|)|, 512)))
  }

  method ArchiveLoop(input: Bytes, files: Files, props: Props) returns (r: LoopResult, out: Bytes)
    ensures r == if !LoopGuard(props) then Failed
                 else match ReadList(props, files, input, [])
                      case AtEnd(calls) => Written(|PaddedArchive(props, calls)|)
                      case AtFailure(panics) => if panics then Crashed else Failed
    ensures r.Written? ==> out == PaddedArchive(props, ReadList(props, files, input, []).calls) && r.length % 512 == 0
  {
    hide Archive, Trailer, Valid, Complete, AllAccepted, CallFor, AlignAssertHolds, OutcomeOf, PadLen, ReadList, TypeOf, Zeros, PaddedArchive;
    out := [];
    if props.dataAlign > 0 && (props.initialDataOff + props.dataAlign) % 4 != 0 {
      return Failed, out;
    }
    var state := new ArchiveState(props);
    var pos := 0;
    assert input[0..] == input;
    while true
      invariant pos <= |input|
      invariant fresh(state) && state.props == props && state.Consistent()
      invariant ReadList(props, files, input, []) == ReadList(props, files, input[pos..], state.calls)
      decreases |input| - pos
    {
      ghost var rest := input[pos..];
      ReadListStep(props, files, rest, state.calls);
      var i := Separator(input[pos..]);
      var l := if i < |input| - pos then i + 1 else i;
      if l == 0 {
        break;
      }
      if l >= PATH_MAX {
        return Failed, state.out;
      }
      var line := input[pos..pos + i];
      pos := pos + l;
      assert rest[..i] == line && rest[l..] == input[pos..];
      if line == [] {
        continue;
      }
      var call := CallFor(props, files, line);
      if call.None? {
        return Failed, state.out;
      }
      var done := ArchiveOne(state, call.value);
      if done == Panic {
        return Crashed, state.out;
      }
      if done != Success {
        return Failed, state.out;
      }
    }
    assert input[pos..] == [];
    out, r := Finish(state);
  }

  /** The trailer and the padding to whole blocks. */
  method Finish(state: ArchiveState) returns (out: Bytes, r: LoopResult)
    requires state.Consistent()
    modifies state
    ensures out == PaddedArchive(state.props, old(state.calls))
    ensures r == Written(|out|) && |out| % 512 == 0
  {
    hide Archive, Trailer, AllAccepted, PadLen, Zeros, PaddedArchive;
    ghost var calls := state.calls;
    var finalOff := state.ArchiveTrailer();
    var blockPadlen := PadLen(finalOff, 512);
    out := state.out;
    if blockPadlen > 0 {
      out := out + Zeros(blockPadlen);
      finalOff := finalOff + blockPadlen;
    }
    PaddedIs(state.props, calls, out, blockPadlen);
    WholeBlocks(state.props, calls);
    r := Written(finalOff);
  }

  /** The archive function for the kind of entry. */
  method ArchiveOne(state: ArchiveState, call: Call) returns (done: Outcome)
    requires state.Consistent()
    modifies state
    ensures done == OutcomeOf(state.props, old(|state.out|), call)
    ensures done == Success ==> state.Consistent() && state.calls == old(state.calls) + [call]
  {
    hide Archive, Trailer, Valid, Complete, AllAccepted, AlignAssertHolds;
    match call {
      case FileCall(path, md, data) =>
        done := state.ArchiveFile(path, md, data);
      case LinkCall(path, md, target) =>
        OnlyFilesAlign(state.props, state.off, call);
        done := state.ArchiveSymlink(path, md, target);
      case PathCall(path, md) =>
        OnlyFilesAlign(state.props, state.off, call);
        done := state.ArchivePath(path, md);
    }
  }

  lemma OnlyFilesAlign(props: Props, off: nat, call: Call)
    requires !call.FileCall?
    ensures AlignAssertHolds(props, off, call) && Complete(call)
  {
    hide Name;
  }

  /** The definition of `ReadList`, one line at a time. */
  lemma {:induction false} ReadListStep(props: Props, files: Files, input: Bytes, done: seq<Call>)
    requires AllAccepted(done)
    ensures ReadList(props, files, input, done) ==
            if input == [] then AtEnd(done)
            else
              var i := Separator(input);
              var l := if i < |input| then i + 1 else i;
              if l >= PATH_MAX then AtFailure(false)
              else if i == 0 then ReadList(props, files, input[l..], done)
              else
                match CallFor(props, files, input[..i])
                case None => AtFailure(false)
                case Some(call) =>
                  var out := OutcomeOf(props, |Archive(props, 0, props.initialIno, done)|, call);
                  if out == Success then AcceptedParts(done, call); ReadList(props, files, input[l..], done + [call])
                  else AtFailure(out == Panic)
  {
    hide CallFor, Valid, Complete, AlignAssertHolds, Archive;
  }

  /** No list panics behind the guard, with an alignment that is safe. */
  lemma {:induction false} SafeListNeverPanics(props: Props, files: Files, input: Bytes, done: seq<Call>)
    requires LoopGuard(props) && SafeAlign(props) && AllAccepted(done)
    ensures ReadList(props, files, input, done) != AtFailure(true)
    decreases |input|
  {
    hide CallFor, Valid, Complete, AlignAssertHolds, Archive, AllAccepted, ReadList, LoopGuard, SafeAlign;
    ReadListStep(props, files, input, done);
    if input != [] {
      var i := Separator(input);
      var l := if i < |input| then i + 1 else i;
      var call := CallFor(props, files, input[..i]);
      if l < PATH_MAX && i == 0 {
        SafeListNeverPanics(props, files, input[l..], done);
      } else if l < PATH_MAX && call.Some? {
        SafeAt(props, done, call.value);
        if OutcomeOf(props, |Archive(props, 0, props.initialIno, done)|, call.value) == Success {
          AcceptedParts(done, call.value);
          SafeListNeverPanics(props, files, input[l..], done + [call.value]);
        }
      }
    }
  }

  lemma {:induction false} PaddedIs(props: Props, calls: seq<Call>, out: Bytes, pad: nat)
    requires AllAccepted(calls)
    requires var a := Archive(props, 0, props.initialIno, calls);
             && pad == PadLen(|a + Trailer(|a|)|, 512)
             && out == if pad > 0 then a + Trailer(|a|) + Zeros(pad) else a + Trailer(|a|)
    ensures out == PaddedArchive(props, calls)
  {
    hide Archive, Trailer, PadLen, AllAccepted;
    var a := Archive(props, 0, props.initialIno, calls);
    Joined(a, Trailer(|a|), Zeros(pad));
  }

  /** What `archive_loop` writes: whole 512-byte blocks, and an archive that the
      walker reads back as exactly the listed paths. */
  lemma {:induction false} PaddedArchiveReads(props: Props, calls: seq<Call>)
    requires Readable(props) && Listable(calls)
    ensures AllAccepted(calls)
    ensures var out := PaddedArchive(props, calls);
            var w := Walk(out, 0);
            && |out| % 512 == 0
            && w.clean && |w.ents| == |calls|
            && forall i :: 0 <= i < |calls| ==> Valid(calls[i]) && Shows(w.ents[i], calls[i])
  {
    hide Archive, Trailer, PadLen, AllAccepted, Listable, Readable, Valid, Shows, Walk;
    ListableAccepted(calls);
    var a := Archive(props, 0, props.initialIno, calls);
    var total := |a| + |Trailer(|a|)|;
    WalkListsCalls(props, calls, Zeros(PadLen(total, 512)));
    WholeBlocks(props, calls);
  }

  lemma ListableAccepted(calls: seq<Call>)
    requires Listable(calls)
    ensures AllAccepted(calls)
  {
    hide Valid, Complete, Name;
  }

  lemma {:induction false} WholeBlocks(props: Props, calls: seq<Call>)
    requires AllAccepted(calls)
    ensures |PaddedArchive(props, calls)| % 512 == 0
  {
    hide Archive, Trailer, PadLen, AllAccepted;
    var a := Archive(props, 0, props.initialIno, calls);
    Pow2Of512();
    PadToPow2(|a| + |Trailer(|a|)|, 9);
  }

  lemma Pow2Of512()
    ensures Pow2(9) == 512
  {
    assert Pow2(3) == 8;
    assert Pow2(6) == 64;
  }

  // ---- lists that crash the loop ------------------------------------------

  const DIR_STAT := Stat(0x4000, 0, 0, 2, 0, 0, 0, 0)

  function FileStat(props: Props): Stat { Stat(0x8000, 0, 0, 1, 0, 0, 0, props.dataAlign + 1) }

  /** Directories named by up to 113 letters `a`, large files by up to four `b`. */
  function Table(props: Props): Files {
    map p | p in TablePaths() :: if p[0] == 97 then Node(DIR_STAT, [], []) else Node(FileStat(props), Zeros(props.dataAlign + 1), [])
  }

  function TablePaths(): (paths: set<Bytes>)
    ensures forall p :: p in paths ==> p != []
  {
    (set n: nat | 0 < n < 114 :: Letters(n, 97)) + (set n: nat | 0 < n < 5 :: Letters(n, 98))
  }

  function ListText(calls: seq<Call>): Bytes {
    if calls == [] then [] else calls[0].path + [LIST_SEPARATOR] + ListText(calls[1..])
  }

  lemma {:induction false} SeparatorAt(line: Bytes, rest: Bytes)
    requires LIST_SEPARATOR !in line && (rest == [] || rest[0] == LIST_SEPARATOR)
    ensures Separator(line + rest) == |line|
    decreases |line|
  {
    if line == [] {
      assert line + rest == rest;
    } else {
      assert (line + rest)[1..] == line[1..] + rest;
      SeparatorAt(line[1..], rest);
    }
  }

  lemma DirCall(props: Props, call: Call)
    requires MdFrom(props, DIR_STAT).Some? && IsDir(call, MdFrom(props, DIR_STAT).value)
    ensures CallFor(props, Table(props), call.path) == Some(call)
    ensures LIST_SEPARATOR !in call.path
  {
    assert call.path[0] == 97;
    assert call.path in TablePaths();
  }

  lemma FileCallFor(props: Props, call: Call)
    requires MdFrom(props, FileStat(props)).Some? && IsFile(call, MdFrom(props, FileStat(props)).value)
    ensures CallFor(props, Table(props), call.path) == Some(call)
    ensures LIST_SEPARATOR !in call.path
  {
    assert call.path[0] == 98;
    assert call.path in TablePaths();
  }

  lemma {:induction false} ReadDir(props: Props, done: seq<Call>, call: Call, tail: Bytes)
    requires MdFrom(props, DIR_STAT).Some? && IsDir(call, MdFrom(props, DIR_STAT).value)
    requires AllAccepted(done) && Accepted(call)
    ensures AllAccepted(done + [call])
    ensures ReadList(props, Table(props), call.path + [LIST_SEPARATOR] + tail, done)
         == ReadList(props, Table(props), tail, done + [call])
  {
    hide ReadList, CallFor, Table, MdFrom, IsDir, Archive, Accepted, AllAccepted, OutcomeOf, Separator;
    AcceptedParts(done, call);
    DirCall(props, call);
    DirSucceeds(props, |Archive(props, 0, props.initialIno, done)|, call);
    var text, n := call.path + [LIST_SEPARATOR] + tail, |call.path|;
    assert text == call.path + ([LIST_SEPARATOR] + tail);
    SeparatorAt(call.path, [LIST_SEPARATOR] + tail);
    assert text[..n] == call.path && text[n + 1..] == tail;
    ReadListStep(props, Table(props), text, done);
  }

  /** A list of directories of the table is read as their calls. */
  lemma {:induction false} ReadDirs(props: Props, done: seq<Call>, calls: seq<Call>, rest: Bytes)
    requires MdFrom(props, DIR_STAT).Some? && AllDirs(calls, MdFrom(props, DIR_STAT).value)
    requires AllAccepted(done) && AllAccepted(calls)
    ensures AllAccepted(done + calls)
    ensures ReadList(props, Table(props), ListText(calls) + rest, done) == ReadList(props, Table(props), rest, done + calls)
    decreases |calls|
  {
    hide ReadList, Table, MdFrom, IsDir, Accepted;
    if calls == [] {
      assert done + calls == done && ListText(calls) + rest == rest;
    } else {
      var call, more := calls[0], calls[1..];
      assert IsDir(call, MdFrom(props, DIR_STAT).value) && Accepted(call);
      assert ListText(calls) + rest == call.path + [LIST_SEPARATOR] + (ListText(more) + rest);
      ReadDir(props, done, call, ListText(more) + rest);
      ReadDirs(props, done + [call], more, rest);
      assert done + [call] + more == done + calls;
    }
  }

  lemma DirSucceeds(props: Props, off: nat, call: Call)
    requires Accepted(call) && exists md :: IsDir(call, md)
    ensures OutcomeOf(props, off, call) == Success && 0 < |call.path| < 114
  {
    hide Valid, Letters;
    var md :| IsDir(call, md);
    OnlyFilesAlign(props, off, call);
  }

  /** Behind the guard, some list of paths crashes the loop on some host if and only if
      the alignment is not safe. */
  lemma {:induction false} CrashExact(props: Props)
    requires LoopGuard(props) && props.namesizeMax >= 6
    ensures (exists files, input :: ReadList(props, files, input, []) == AtFailure(true)) <==> !SafeAlign(props)
  {
    hide ReadList;
    if SafeAlign(props) {
      forall files, input ensures ReadList(props, files, input, []) != AtFailure(true) {
        SafeListNeverPanics(props, files, input, []);
      }
    } else {
      var input := CrashList(props);
      assert ReadList(props, Table(props), input, []) == AtFailure(true);
    }
  }

  lemma {:induction false} CrashList(props: Props) returns (input: Bytes)
    requires LoopGuard(props) && props.namesizeMax >= 6 && !SafeAlign(props)
    ensures ReadList(props, Table(props), input, []) == AtFailure(true)
  {
    hide ReadList, Table, AllDirs, IsDir, IsFile, Archive, Accepted, AllAccepted, CallFor, HoldsAt, MdFrom, TypeOf;
    TableMds(props);
    var dirMd, fileMd := MdFrom(props, DIR_STAT).value, MdFrom(props, FileStat(props)).value;
    var calls, call := PanicAt(props, dirMd, fileMd);
    input := ListText(calls) + call.path;
    NoCalls(props);
    ReadDirs(props, [], calls, call.path);
    assert [] + calls == calls;
    FileCrashes(props, calls, call, fileMd);
  }

  lemma TableMds(props: Props)
    requires props.dataAlign < 0xFFFF_FFFF
    ensures var d, f := MdFrom(props, DIR_STAT), MdFrom(props, FileStat(props));
            && d.Some? && TypeOf(d.value.mode) == IFDIR
            && f.Some? && TypeOf(f.value.mode) == IFREG && f.value.len == props.dataAlign + 1
  {
  }

  lemma {:induction false} FileCrashes(props: Props, calls: seq<Call>, call: Call, md: Md)
    requires MdFrom(props, FileStat(props)) == Some(md) && IsFile(call, md) && Accepted(call)
    requires AllAccepted(calls) && !HoldsAt(props, calls, call)
    ensures ReadList(props, Table(props), call.path, calls) == AtFailure(true)
  {
    hide ReadList, Table, Archive, AllAccepted, CallFor, MdFrom, AlignAssertHolds, Valid, Complete, Letters, Zeros;
    var path := call.path;
    FileCallFor(props, call);
    assert path + [] == path && path[..|path|] == path;
    SeparatorAt(path, []);
    ReadListStep(props, Table(props), path, calls);
  }
}
