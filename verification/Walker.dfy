/** `ArchiveWalker` (src/cpio/src/lib.rs): reads an archive back knowing only each
    header, and the proof that it returns what the writer was given. */
module Walker {
  import opened Strings
  import opened Newc
  import opened Padding
  import opened Cpio

  /** `ArchiveEnt`; `name` is the name field, terminator and extra zeros included. */
  datatype Ent = Ent(md: Md, name: Bytes)

  /** The result of one step, and where the reader stands afterwards. */
  datatype Next = End(pos: nat) | Bad(pos: nat) | Got(ent: Ent, pos: nat)

  predicate IsTrailer(name: Bytes) { name != [] && name[..|name| - 1] == TRAILER }

  /** A read that comes up short has consumed everything. */
  function Drained(s: Bytes, pos: nat): nat { if pos < |s| then |s| else pos }

  /** One step of the walk from `pos`. */
  function NextFrom(s: Bytes, pos: nat): Next
  {
    var start := pos + NEWC_HDR_LEN;
    if |s| < start then End(Drained(s, pos))
    else
      var hdr := s[pos..start];
      if hdr[..6] != MAGIC then Bad(start)
      else
        match ReadMd(hdr[6..])
        case None => Bad(start)
        case Some((md, namesize)) =>
          if |s| < start + namesize then Bad(Drained(s, start))
          else
            var name := s[start..start + namesize];
            var next := start + namesize + Pad4(NEWC_HDR_LEN + namesize) + md.len + Pad4(md.len);
            if IsTrailer(name) then End(next) else Got(Ent(md, name), next)
  }

  /** Everything a caller sees that stops at the end or at the first error. */
  datatype Walked = Walked(ents: seq<Ent>, clean: bool)

  function Walk(s: Bytes, pos: nat): Walked
    decreases |s| - pos
  {
    match NextFrom(s, pos)
    case End(_) => Walked([], true)
    case Bad(_) => Walked([], false)
    case Got(ent, pos1) =>
      var rest := Walk(s, pos1);
      Walked([ent] + rest.ents, rest.clean)
  }

  class ArchiveWalker {
    const data: Bytes
    var pos: nat

    constructor (data: Bytes)
      ensures this.data == data && pos == 0
    {
      this.data := data;
      pos := 0;
    }

    /** `next`: None is the end, `Some(None)` an error. */
    method Next() returns (r: Option<Option<Ent>>)
      modifies this
      ensures match NextFrom(data, old(pos))
              case End(pos1) => r == None && pos == pos1
              case Bad(pos1) => r == Some(None) && pos == pos1
              case Got(ent, pos1) => r == Some(Some(ent)) && pos == pos1
    {
      hide ReadMd, PadLen;
      if |data| < pos + NEWC_HDR_LEN {
        pos := Drained(data, pos);
        return None;
      }
      var hdrBuf := data[pos..pos + NEWC_HDR_LEN];
      pos := pos + NEWC_HDR_LEN;
      if hdrBuf[..6] != MAGIC {
        return Some(None);
      }
      var md := ReadMd(hdrBuf[6..]);
      if md.None? {
        return Some(None);
      }
      var namesize := md.value.1;
      if |data| < pos + namesize {
        pos := Drained(data, pos);
        return Some(None);
      }
      var name := data[pos..pos + namesize];
      pos := pos + namesize;
      ReadMdName(hdrBuf[6..]);
      PadFour(NEWC_HDR_LEN + namesize);
      PadFour(md.value.0.len);
      var npad := PadLen(NEWC_HDR_LEN + namesize, 4);
      var dlen := md.value.0.len;
      var dpad := PadLen(dlen, 4);
      pos := pos + (npad + dlen + dpad);
      if name[..namesize - 1] == TRAILER {
        return None;
      }
      return Some(Some(Ent(md.value.0, name)));
    }
  }

  lemma ReadMdName(hdr: Bytes)
    requires |hdr| == NEWC_HDR_LEN - 6
    ensures ReadMd(hdr).Some? ==> 0 < ReadMd(hdr).value.1 <= PATH_MAX + 1
  {
    hide ParseHex;
  }

  /** `name_str`: the name up to its first zero. */
  function NameStr(ent: Ent): Bytes
    requires ent.name != []
  {
    UpToZero(ent.name[..|ent.name| - 1])
  }

  function UpToZero(s: Bytes): Bytes {
    if s == [] || s[0] == 0 then [] else [s[0]] + UpToZero(s[1..])
  }

  // ---- what the walker should see -----------------------------------------

  /** The walker reads name fields of up to PATH_MAX + 1 bytes. */
  predicate Readable(props: Props) {
    Aligned(props) && props.namesizeMax <= PATH_MAX + 1
  }

  /** The entry of one call: the stored size replaces the length. */
  function EntOf(props: Props, off: nat, call: Call): (e: Ent)
    requires Valid(call)
    ensures e.name != []
  {
    Ent(call.md.(len := FileSize(call)), NameField(props, off, call))
  }

  /** The entries of all calls, up to the first one whose name field reads like
      the trailer. */
  function Visible(props: Props, off: nat, ino: U32, calls: seq<Call>): seq<Ent>
    requires AllAccepted(calls)
    decreases |calls|
  {
    if calls == [] then []
    else
      hide Entry, Valid, Complete, NextIno, EntOf;
      assert Accepted(calls[0]);
      var ent := EntOf(props, off, calls[0]);
      if IsTrailer(ent.name) then []
      else [ent] + Visible(props, off + |Entry(props, off, ino, calls[0])|, NextIno(ino), calls[1..])
  }

  // ---- one entry ----------------------------------------------------------

  lemma {:induction false} ReadsHeader(s: Bytes, pos: nat, h: Bytes, name: Bytes)
    requires |h| == NEWC_HDR_LEN && |s| >= pos + |h| + |name|
    requires s[pos..pos + |h|] == h && s[pos + |h|..pos + |h| + |name|] == name
    requires h[..6] == MAGIC && ReadMd(h[6..]).Some? && ReadMd(h[6..]).value.1 == |name|
    ensures var md := ReadMd(h[6..]).value.0;
            var next := pos + |h| + |name| + Pad4(NEWC_HDR_LEN + |name|) + md.len + Pad4(md.len);
            NextFrom(s, pos) == if IsTrailer(name) then End(next) else Got(Ent(md, name), next)
  {
    hide ReadMd, IsTrailer, Pad4;
  }

  lemma SliceMiddle(pre: Bytes, a: Bytes, b: Bytes, post: Bytes)
    ensures var s := pre + (a + b + post);
            && s[|pre|..|pre| + |a|] == a
            && s[|pre| + |a|..|pre| + |a| + |b|] == b
  {
  }

  /** From a 4-byte boundary, the padding by offset and the padding by length agree. */
  lemma PadAgrees(off: nat, n: nat)
    requires off % 4 == 0
    ensures Pad4(off + n) == Pad4(n)
  {
  }

  /** How far the walker skips is how much the writer wrote. */
  lemma {:induction false} SkipAgrees(props: Props, off: nat, ino: U32, call: Call)
    requires Aligned(props) && off % 4 == 0 && Accepted(call)
    ensures var n := |NameField(props, off, call)|;
            var len := FileSize(call);
            |Entry(props, off, ino, call)| == NEWC_HDR_LEN + n + Pad4(NEWC_HDR_LEN + n) + len + Pad4(len)
  {
    hide Entry, Name, AlignSeek, Pad4;
    var n := |NameField(props, off, call)|;
    SeekAligns(props, off, call);
    AssertOf(props, off, call);
    PadAgrees(off, NEWC_HDR_LEN + n);
    PadAgrees(DataOff(props, off, call), |Data(call)|);
    assert |Data(call)| == FileSize(call);
    Pad4Zero();
  }

  lemma Pad4Zero()
    ensures Pad4(0) == 0
  {
  }

  lemma {:induction false} WalkEntry(props: Props, pre: Bytes, ino: U32, call: Call, post: Bytes)
    requires Readable(props) && |pre| % 4 == 0 && Accepted(call)
    ensures var off := |pre|;
            var e := Entry(props, off, ino, call);
            var ent := EntOf(props, off, call);
            NextFrom(pre + (e + post), off) == if IsTrailer(ent.name) then End(off + |e|) else Got(ent, off + |e|)
  {
    hide Header, ReadMd, NextFrom, IsTrailer, Pad4, Name, AlignSeek, Zeros, Data, DataPad, NamePad;
    var off := |pre|;
    var name := NameField(props, off, call);
    var h := Header(ino, call.md, FileSize(call), |name|);
    var tail := Zeros(NamePad(props, off, call)) + Data(call) + Zeros(DataPad(props, off, call));
    var e := Entry(props, off, ino, call);
    Regroup(h, name, Zeros(NamePad(props, off, call)), Data(call), Zeros(DataPad(props, off, call)), post);
    SliceMiddle(pre, h, name, tail + post);
    HeaderRoundTrip(ino, call.md, FileSize(call), |name|);
    ReadsHeader(pre + (e + post), off, h, name);
    SkipAgrees(props, off, ino, call);
  }

  lemma Regroup(h: Bytes, n: Bytes, z: Bytes, d: Bytes, y: Bytes, post: Bytes)
    ensures (h + n + z) + d + y + post == h + n + ((z + d + y) + post)
  {
  }

  lemma {:induction false} WalkTrailer(pre: Bytes, post: Bytes)
    ensures NextFrom(pre + (Trailer(|pre|) + post), |pre|).End?
  {
    hide Header, ReadMd, NextFrom, Pad4, Zeros;
    var name: Bytes := TRAILER + [0];
    var h := Header(0, TRAILER_MD, 0, 11);
    var z := Zeros(Pad4(|pre| + NEWC_HDR_LEN + 11));
    SliceMiddle(pre, h, name, z + post);
    assert h + name + z + post == h + name + (z + post);
    HeaderRoundTrip(0, TRAILER_MD, 0, 11);
    ReadsHeader(pre + (Trailer(|pre|) + post), |pre|, h, name);
  }

  // ---- whole archives -----------------------------------------------------

  /** Archive round trip: whatever follows the trailer, the walker returns the
      entries of exactly the archived calls, in order, and ends cleanly. */
  lemma {:induction false} WalkArchive(props: Props, pre: Bytes, ino: U32, calls: seq<Call>, post: Bytes)
    requires Readable(props) && |pre| % 4 == 0 && AllAccepted(calls)
    ensures var a := Archive(props, |pre|, ino, calls);
            Walk(pre + (a + (Trailer(|pre| + |a|) + post)), |pre|)
            == Walked(Visible(props, |pre|, ino, calls), true)
    decreases |calls|
  {
    hide *;
    ReadableAligned(props);
    var off := |pre|;
    ArchiveStep(props, off, ino, calls);
    VisibleStep(props, off, ino, calls);
    if calls == [] {
      assert [] + (Trailer(off) + post) == Trailer(off) + post;
      WalkTrailer(pre, post);
      WalkStep(pre + (Trailer(off) + post), off);
    } else {
      FirstAccepted(calls);
      var e := Entry(props, off, ino, calls[0]);
      var a1 := Archive(props, off + |e|, NextIno(ino), calls[1..]);
      EntryAligned(props, off, ino, calls[0]);
      WalkArchive(props, pre + e, NextIno(ino), calls[1..], post);
      WalkFirst(props, pre, ino, calls[0], a1, Trailer(off + |e| + |a1|) + post);
    }
  }

  lemma ReadableAligned(props: Props)
    requires Readable(props)
    ensures Aligned(props)
  {
  }

  lemma AcceptedValid(call: Call)
    requires Accepted(call)
    ensures Valid(call)
  {
  }

  /** The first entry, in front of whatever the rest of the archive reads as. */
  lemma {:induction false} WalkFirst(props: Props, pre: Bytes, ino: U32, call: Call, a1: Bytes, end: Bytes)
    requires Readable(props) && |pre| % 4 == 0 && Accepted(call)
    ensures var e := Entry(props, |pre|, ino, call);
            var ent := EntOf(props, |pre|, call);
            var rest := Walk(pre + e + (a1 + end), |pre| + |e|);
            Walk(pre + (e + a1 + end), |pre|) ==
            if IsTrailer(ent.name) then Walked([], true) else Walked([ent] + rest.ents, rest.clean)
  {
    hide *;
    AcceptedValid(call);
    var e := Entry(props, |pre|, ino, call);
    WalkEntry(props, pre, ino, call, a1 + end);
    WalkStep(pre + (e + (a1 + end)), |pre|);
    Joined(e, a1, end);
    Joined(pre, e, a1 + end);
  }

  lemma {:induction false} WalkStep(s: Bytes, pos: nat)
    ensures Walk(s, pos) ==
            match NextFrom(s, pos)
            case End(_) => Walked([], true)
            case Bad(_) => Walked([], false)
            case Got(ent, pos1) => Walked([ent] + Walk(s, pos1).ents, Walk(s, pos1).clean)
  {
    hide NextFrom;
  }

  lemma {:induction false} VisibleStep(props: Props, off: nat, ino: U32, calls: seq<Call>)
    requires AllAccepted(calls)
    ensures calls == [] ==> Visible(props, off, ino, calls) == []
    ensures calls != [] ==>
            && Valid(calls[0]) && AllAccepted(calls[1..])
            && var ent := EntOf(props, off, calls[0]);
               Visible(props, off, ino, calls) ==
               if IsTrailer(ent.name) then []
               else [ent] + Visible(props, off + |Entry(props, off, ino, calls[0])|, NextIno(ino), calls[1..])
  {
    hide Entry, Valid, Complete, NextIno, EntOf, IsTrailer;
    if calls != [] { assert Accepted(calls[0]); }
  }

  lemma {:induction false} ArchiveRoundTrip(props: Props, calls: seq<Call>, post: Bytes)
    requires Readable(props) && AllAccepted(calls)
    ensures var a := Archive(props, 0, props.initialIno, calls);
            Walk(a + (Trailer(|a|) + post), 0) == Walked(Visible(props, 0, props.initialIno, calls), true)
  {
    hide *;
    WalkArchive(props, [], props.initialIno, calls, post);
    var a := Archive(props, 0, props.initialIno, calls);
    assert [] + (a + (Trailer(0 + |a|) + post)) == a + (Trailer(|a|) + post);
  }

  // ---- names --------------------------------------------------------------

  /** An entry ends the walk exactly when it is named like the trailer and no
      alignment zeros follow its name. */
  lemma {:induction false} TrailerLike(props: Props, off: nat, call: Call)
    ensures IsTrailer(NameField(props, off, call)) <==> Name(call) == TRAILER && AlignSeek(props, off, call) == 0
  {
    hide Name, AlignSeek, Zeros;
    var n, seek := Name(call), AlignSeek(props, off, call);
    var f := NameField(props, off, call);
    assert f[..|f| - 1] == n + Zeros(1 + seek)[..seek];
    if seek > 0 {
      assert f[..|f| - 1][|f| - 2] == 0;
      assert forall i :: 0 <= i < |TRAILER| ==> TRAILER[i] != 0;
    } else {
      assert f[..|f| - 1] == n;
    }
  }

  lemma {:induction false} UpToZeroOf(n: Bytes, z: Bytes)
    requires 0 !in n && forall i :: 0 <= i < |z| ==> z[i] == 0
    ensures UpToZero(n + z) == n
    decreases |n|
  {
    if n == [] {
      assert n + z == z;
    } else {
      assert (n + z)[1..] == n[1..] + z;
      UpToZeroOf(n[1..], z);
    }
  }

  /** The name read back from an entry is the archived name. */
  lemma {:induction false} NameReadsBack(props: Props, off: nat, call: Call)
    requires Valid(call) && 0 !in Name(call)
    ensures NameStr(EntOf(props, off, call)) == Name(call)
  {
    hide Name, AlignSeek, Zeros, Valid, FileSize;
    var f := NameField(props, off, call);
    var z := Zeros(1 + AlignSeek(props, off, call));
    assert f[..|f| - 1] == Name(call) + z[..|z| - 1];
    UpToZeroOf(Name(call), z[..|z| - 1]);
  }

  /** `ent` shows `call`: its name, and its metadata with the stored size. */
  predicate Shows(ent: Ent, call: Call)
    requires Valid(call)
  {
    ent.name != [] && NameStr(ent) == Name(call) && ent.md == call.md.(len := FileSize(call))
  }

  predicate Listable(calls: seq<Call>) {
    forall i :: 0 <= i < |calls| ==> Accepted(calls[i]) && 0 !in Name(calls[i]) && Name(calls[i]) != TRAILER
  }

  lemma {:induction false} VisibleShows(props: Props, off: nat, ino: U32, calls: seq<Call>)
    requires Listable(calls)
    ensures AllAccepted(calls)
    ensures var v := Visible(props, off, ino, calls);
            |v| == |calls| && forall i :: 0 <= i < |calls| ==> Valid(calls[i]) && Shows(v[i], calls[i])
    decreases |calls|
  {
    hide Name, NameStr, Visible, Valid, Complete, NextIno, Entry, IsTrailer, EntOf;
    assert AllAccepted(calls);
    VisibleStep(props, off, ino, calls);
    if calls != [] {
      assert Accepted(calls[0]);
      FirstShows(props, off, calls[0]);
      var off1 := off + |Entry(props, off, ino, calls[0])|;
      VisibleShows(props, off1, NextIno(ino), calls[1..]);
      var v := Visible(props, off, ino, calls);
      var w := Visible(props, off1, NextIno(ino), calls[1..]);
      forall i | 0 <= i < |calls| ensures Valid(calls[i]) && Shows(v[i], calls[i]) {
        assert Accepted(calls[i]);
        if i > 0 { assert v[i] == w[i - 1] && calls[i] == calls[1..][i - 1]; }
      }
    }
  }

  lemma {:induction false} FirstShows(props: Props, off: nat, call: Call)
    requires Valid(call) && 0 !in Name(call) && Name(call) != TRAILER
    ensures var ent := EntOf(props, off, call); Shows(ent, call) && !IsTrailer(ent.name)
  {
    hide Name, NameStr, Valid, NameField, IsTrailer, AlignSeek;
    NameReadsBack(props, off, call);
    TrailerLike(props, off, call);
  }

  /** The walker lists exactly the archived calls: same order, same metadata with
      length zero, target length or file length, and the trimmed names. */
  lemma {:induction false} WalkListsCalls(props: Props, calls: seq<Call>, post: Bytes)
    requires Readable(props) && Listable(calls)
    ensures AllAccepted(calls)
    ensures var a := Archive(props, 0, props.initialIno, calls);
            var w := Walk(a + (Trailer(|a|) + post), 0);
            w.clean && |w.ents| == |calls| &&
            forall i :: 0 <= i < |calls| ==> Valid(calls[i]) && Shows(w.ents[i], calls[i])
  {
    hide *;
    VisibleShows(props, 0, props.initialIno, calls);
    ArchiveRoundTrip(props, calls, post);
  }

  // ---- inode numbers ------------------------------------------------------

  /** The i-th entry starts behind the entries before it and carries inode number
      `initialIno + i`, modulo 2^32. */
  lemma {:induction false} EntryAt(props: Props, calls: seq<Call>, i: nat)
    requires AllAccepted(calls) && i < |calls|
    ensures AllAccepted(calls[..i]) && Valid(calls[i])
    ensures var a := Archive(props, 0, props.initialIno, calls);
            var b := Archive(props, 0, props.initialIno, calls[..i]);
            var ino := (props.initialIno + i) % 0x1_0000_0000;
            b + Entry(props, |b|, ino, calls[i]) <= a
    decreases |calls| - i
  {
    hide *;
    PrefixAccepted(calls, i);
    var p := calls[..i];
    assert p + [calls[i]] == calls[..i + 1];
    ArchiveSnoc(props, 0, props.initialIno, p, calls[i]);
    if i + 1 < |calls| {
      EntryAt(props, calls, i + 1);
    } else {
      assert calls[..i + 1] == calls;
    }
  }

  lemma PrefixAccepted(calls: seq<Call>, i: nat)
    requires AllAccepted(calls) && i < |calls|
    ensures AllAccepted(calls[..i]) && Accepted(calls[i]) && Valid(calls[i])
  {
    hide Valid, Complete;
    assert Accepted(calls[i]);
  }

  lemma {:induction false} EntryInode(props: Props, off: nat, ino: U32, call: Call)
    requires Valid(call)
    ensures var e := Entry(props, off, ino, call);
            |e| >= 14 && ParseHex(e[6..14]) == Some(ino)
  {
    hide Name, AlignSeek, ParseHex, HexField, NamePad, DataPad, Data, Zeros;
    var h := Header(ino, call.md, FileSize(call), |NameField(props, off, call)|);
    var e := Entry(props, off, ino, call);
    assert e[6..14] == h[6..14] == HexField(ino, 8);
    FieldRoundTrip(ino);
  }

  // ---- what is not an archive ---------------------------------------------

  /** Less than a header left is the end; a wrong magic number, a name size of zero or
      above PATH_MAX + 1, and a name cut short are errors. */
  lemma {:induction false} NotAnEntry(s: Bytes, pos: nat, ino: U32, md: Md, filesize: U32, namesize: U32)
    ensures |s| < pos + 110 ==> NextFrom(s, pos).End?
    ensures |s| >= pos + 110 && s[pos..pos + 6] != [48, 55, 48, 55, 48, 49] ==> NextFrom(s, pos).Bad?
    ensures (&& |s| >= pos + 110 && s[pos..pos + 110] == Header(ino, md, filesize, namesize)
             && (namesize == 0 || namesize > 4097 || |s| < pos + 110 + namesize)) ==> NextFrom(s, pos).Bad?
  {
    hide ReadMd, Header, Pad4;
    if |s| >= pos + 110 {
      var hdr := s[pos..pos + 110];
      assert hdr[..6] == s[pos..pos + 6];
      HeaderRoundTrip(ino, md, filesize, namesize);
    }
  }
}
