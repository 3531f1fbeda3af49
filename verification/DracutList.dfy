/** Which calls a list of paths yields in `archive_loop` (src/bin/dracut-cpio.rs). */
module DracutList {
  import opened Strings
  import opened Newc
  import opened Cpio
  import opened DracutCpio

  /** The call archives the file that the path names: its metadata, with the owner and
      the time of the properties in place; the content of a regular file, the target of
      a symlink, and no data for anything else. */
  predicate Archives(props: Props, files: Files, path: Bytes, call: Call) {
    && path in files && call.path == path
    && var node := files[path];
       var kind := node.stat.mode / 4096 % 16;
    && ShowsStat(call.md, node.stat.(
         uid := if props.fixedUid.Some? then props.fixedUid.value else node.stat.uid,
         gid := if props.fixedGid.Some? then props.fixedGid.value else node.stat.gid,
         mtime := if props.fixedMtime.Some? then props.fixedMtime.value else node.stat.mtime))
    && (kind == 8 ==> call.FileCall? && call.data == node.content)
    && (kind == 10 ==> call.LinkCall? && call.target == node.target)
    && (kind != 8 && kind != 10 ==> call.PathCall?)
  }

  lemma {:induction false} CallForExact(props: Props, files: Files, path: Bytes, call: Call)
    ensures CallFor(props, files, path) == Some(call) <==> Archives(props, files, path, call)
  {
    if path in files { MdFromExact(props, files[path].stat); }
  }

  // ---- the text of a list -------------------------------------------------

  predicate IsLine(line: Bytes) { LIST_SEPARATOR !in line && |line| + 1 < PATH_MAX }

  predicate AllLines(lines: seq<Bytes>) { forall i :: 0 <= i < |lines| ==> IsLine(lines[i]) }

  /** Lines, each with its separator; the last one without it if `open`. */
  function Text(lines: seq<Bytes>, open: bool): Bytes {
    if lines == [] then []
    else if open && |lines| == 1 then lines[0]
    else lines[0] + [LIST_SEPARATOR] + Text(lines[1..], open)
  }

  /** The paths of the list: its lines without the empty ones. */
  function Paths(lines: seq<Bytes>): seq<Bytes> {
    if lines == [] then [] else (if lines[0] == [] then [] else [lines[0]]) + Paths(lines[1..])
  }

  /** The calls `calls` behind `done` archive the paths one by one, in order, and no
      alignment assertion fails. */
  ghost predicate Yields(props: Props, files: Files, paths: seq<Bytes>, done: seq<Call>, calls: seq<Call>) {
    && |calls| == |paths|
    && forall i :: 0 <= i < |paths| ==>
         && Archives(props, files, paths[i], calls[i]) && Accepted(calls[i])
         && HoldsAt(props, done + calls[..i], calls[i])
  }

  lemma {:induction false} YieldsFirst(props: Props, files: Files, paths: seq<Bytes>, done: seq<Call>, calls: seq<Call>)
    requires paths != []
    ensures Yields(props, files, paths, done, calls) <==>
            && |calls| == |paths|
            && Archives(props, files, paths[0], calls[0]) && Accepted(calls[0]) && HoldsAt(props, done, calls[0])
            && Yields(props, files, paths[1..], done + [calls[0]], calls[1..])
  {
    hide Archives, Accepted, HoldsAt;
    if |calls| == |paths| {
      assert done + calls[..0] == done;
      forall i | 0 <= i < |paths| - 1 ensures done + [calls[0]] + calls[1..][..i] == done + calls[..i + 1] {
      }
      if Yields(props, files, paths[1..], done + [calls[0]], calls[1..])
         && Archives(props, files, paths[0], calls[0]) && Accepted(calls[0]) && HoldsAt(props, done, calls[0]) {
        forall i | 0 <= i < |paths|
          ensures Archives(props, files, paths[i], calls[i]) && Accepted(calls[i]) && HoldsAt(props, done + calls[..i], calls[i])
        {
          if i > 0 {
            assert paths[1..][i - 1] == paths[i] && calls[1..][i - 1] == calls[i];
            assert done + [calls[0]] + calls[1..][..i - 1] == done + calls[..i];
          }
        }
      }
      if Yields(props, files, paths, done, calls) {
        forall i | 0 <= i < |paths[1..]|
          ensures Archives(props, files, paths[1..][i], calls[1..][i]) && Accepted(calls[1..][i])
                  && HoldsAt(props, done + [calls[0]] + calls[1..][..i], calls[1..][i])
        {
          assert done + [calls[0]] + calls[1..][..i] == done + calls[..i + 1];
        }
      }
    }
  }

  /** One line of the list. */
  lemma {:induction false} OneLine(props: Props, files: Files, line: Bytes, rest: Bytes, done: seq<Call>)
    requires IsLine(line) && AllAccepted(done) && (line + rest != []) && (rest == [] || rest[0] == LIST_SEPARATOR)
    ensures var tail := if rest == [] then [] else rest[1..];
            ReadList(props, files, line + rest, done) ==
            if line == [] then ReadList(props, files, tail, done)
            else match CallFor(props, files, line)
                 case None => AtFailure(false)
                 case Some(call) =>
                   var out := OutcomeOf(props, |Archive(props, 0, props.initialIno, done)|, call);
                   if out == Success then AcceptedParts(done, call); ReadList(props, files, tail, done + [call])
                   else AtFailure(out == Panic)
  {
    hide ReadList, CallFor, OutcomeOf, Archive, AllAccepted, Separator;
    SeparatorAt(line, rest);
    ReadListStep(props, files, line + rest, done);
    var text := line + rest;
    assert text[..|line|] == line;
    if rest != [] { assert text[|line| + 1..] == rest[1..]; } else { assert text[|line|..] == []; }
  }

  lemma SuccessIs(props: Props, done: seq<Call>, call: Call)
    requires AllAccepted(done)
    ensures OutcomeOf(props, |Archive(props, 0, props.initialIno, done)|, call) == Success
            <==> Accepted(call) && HoldsAt(props, done, call)
  {
    hide Archive, AlignAssertHolds, Valid, Complete;
  }

  /** A list is read to its end with exactly the calls that archive its paths, in order;
      if there are no such calls it fails. */
  lemma {:induction false} ListExact(props: Props, files: Files, lines: seq<Bytes>, open: bool, done: seq<Call>, calls: seq<Call>)
    requires AllLines(lines) && AllAccepted(done) && (open && lines != [] ==> lines[|lines| - 1] != [])
    ensures ReadList(props, files, Text(lines, open), done) == AtEnd(done + calls)
            <==> Yields(props, files, Paths(lines), done, calls)
    decreases |lines|
  {
    hide ReadList, CallFor, OutcomeOf, Archive, AllAccepted, Archives, Accepted, HoldsAt, IsLine;
    if lines == [] {
      ReadListStep(props, files, [], done);
      assert done + calls == done <==> calls == [];
    } else {
      var line, more := lines[0], lines[1..];
      assert IsLine(line);
      var rest := if open && |lines| == 1 then [] else [LIST_SEPARATOR] + Text(more, open);
      assert Text(lines, open) == line + rest;
      if rest == [] { assert more == []; } else { assert rest[1..] == Text(more, open); }
      OneLine(props, files, line, rest, done);
      if line == [] {
        ListExact(props, files, more, open, done, calls);
      } else {
        FirstPath(props, files, lines, open, done, calls);
      }
    }
  }

  lemma {:induction false} FirstPath(props: Props, files: Files, lines: seq<Bytes>, open: bool, done: seq<Call>, calls: seq<Call>)
    requires AllLines(lines) && AllAccepted(done) && (open && lines != [] ==> lines[|lines| - 1] != [])
    requires lines != [] && lines[0] != []
    requires ReadList(props, files, Text(lines, open), done) ==
             match CallFor(props, files, lines[0])
             case None => AtFailure(false)
             case Some(call) =>
               var out := OutcomeOf(props, |Archive(props, 0, props.initialIno, done)|, call);
               if out == Success then AcceptedParts(done, call); ReadList(props, files, Text(lines[1..], open), done + [call])
               else AtFailure(out == Panic)
    ensures ReadList(props, files, Text(lines, open), done) == AtEnd(done + calls)
            <==> Yields(props, files, Paths(lines), done, calls)
    decreases |lines|, 0
  {
    hide ReadList, CallFor, OutcomeOf, Archive, AllAccepted, Archives, Accepted, HoldsAt, IsLine, Yields, Text;
    var line, more := lines[0], lines[1..];
    var paths := Paths(lines);
    assert paths[0] == line && paths[1..] == Paths(more);
    YieldsFirst(props, files, paths, done, calls);
    var found := CallFor(props, files, line);
    YieldsSize(props, files, paths, done, calls);
    if calls != [] { CallForExact(props, files, line, calls[0]); }
    if found.Some? {
      var call := found.value;
      SuccessIs(props, done, call);
      if OutcomeOf(props, |Archive(props, 0, props.initialIno, done)|, call) == Success {
        AcceptedParts(done, call);
        Behind(props, files, Text(more, open), done + [call]);
        if calls != [] {
          ListExact(props, files, more, open, done + [call], calls[1..]);
          if calls[0] == call { assert done + calls == done + [call] + calls[1..]; }
          YieldsSize(props, files, paths[1..], done + [calls[0]], calls[1..]);
          if ReadList(props, files, Text(lines, open), done) == AtEnd(done + calls) {
            assert (done + calls)[|done|] == calls[0];
          }
        }
      }
    }
  }

  lemma YieldsSize(props: Props, files: Files, paths: seq<Bytes>, done: seq<Call>, calls: seq<Call>)
    ensures Yields(props, files, paths, done, calls) ==> |calls| == |paths|
  {
    hide Archives, Accepted, HoldsAt;
  }

  /** Reading on never drops a call. */
  lemma {:induction false} Behind(props: Props, files: Files, input: Bytes, done: seq<Call>)
    requires AllAccepted(done)
    ensures var r := ReadList(props, files, input, done);
            r.AtEnd? ==> done <= r.calls
    decreases |input|
  {
    hide ReadList, CallFor, OutcomeOf, Archive, AllAccepted;
    ReadListStep(props, files, input, done);
    if input != [] {
      var i := Separator(input);
      var l := if i < |input| then i + 1 else i;
      var found := CallFor(props, files, input[..i]);
      if l < PATH_MAX && i == 0 {
        Behind(props, files, input[l..], done);
      } else if l < PATH_MAX && found.Some? {
        SuccessIs(props, done, found.value);
        if OutcomeOf(props, |Archive(props, 0, props.initialIno, done)|, found.value) == Success {
          AcceptedParts(done, found.value);
          Behind(props, files, input[l..], done + [found.value]);
        }
      }
    }
  }

  /** With an alignment that is safe, a list is read to its end if and only if every path
      on it names a file that can be archived. */
  lemma {:induction false} ListReadExactly(props: Props, files: Files, lines: seq<Bytes>, open: bool)
    requires LoopGuard(props) && SafeAlign(props)
    requires AllLines(lines) && (open && lines != [] ==> lines[|lines| - 1] != [])
    ensures ReadList(props, files, Text(lines, open), []).AtEnd? <==>
            forall i :: 0 <= i < |Paths(lines)| ==> CanArchive(props, files, Paths(lines)[i])
  {
    hide ReadList, Text, Paths, Archives, Accepted, LoopGuard, SafeAlign, AllLines, HoldsAt;
    var paths := Paths(lines);
    var r := ReadList(props, files, Text(lines, open), []);
    NoCalls(props);
    if r.AtEnd? {
      assert [] + r.calls == r.calls;
      ListExact(props, files, lines, open, [], r.calls);
      forall i | 0 <= i < |paths| ensures CanArchive(props, files, paths[i]) {
        assert Archives(props, files, paths[i], r.calls[i]);
      }
    }
    if forall i :: 0 <= i < |paths| ==> CanArchive(props, files, paths[i]) {
      var calls := CallsOf(props, files, paths);
      forall i | 0 <= i < |paths| ensures HoldsAt(props, [] + calls[..i], calls[i]) { SafeAt(props, [] + calls[..i], calls[i]); }
      ListExact(props, files, lines, open, [], calls);
    }
  }

  ghost predicate CanArchive(props: Props, files: Files, path: Bytes) {
    exists call :: Archives(props, files, path, call) && Accepted(call)
  }

  lemma {:induction false} CallsOf(props: Props, files: Files, paths: seq<Bytes>) returns (calls: seq<Call>)
    requires forall i :: 0 <= i < |paths| ==> CanArchive(props, files, paths[i])
    ensures |calls| == |paths| && forall i :: 0 <= i < |paths| ==> Archives(props, files, paths[i], calls[i]) && Accepted(calls[i])
    decreases |paths|
  {
    hide Archives, Accepted;
    if paths == [] {
      calls := [];
    } else {
      assert CanArchive(props, files, paths[0]);
      var call :| Archives(props, files, paths[0], call) && Accepted(call);
      var more := CallsOf(props, files, paths[1..]);
      calls := [call] + more;
    }
  }

  /** A line too long for a path stops the loop. */
  lemma {:induction false} LongLineFails(props: Props, files: Files, line: Bytes, rest: Bytes, done: seq<Call>)
    requires AllAccepted(done) && LIST_SEPARATOR !in line && |line| + 1 >= 4096
    ensures ReadList(props, files, line + [LIST_SEPARATOR] + rest, done) == AtFailure(false)
  {
    hide ReadList, CallFor, OutcomeOf, Archive, AllAccepted, Separator;
    var text := line + [LIST_SEPARATOR] + rest;
    assert text == line + ([LIST_SEPARATOR] + rest);
    SeparatorAt(line, [LIST_SEPARATOR] + rest);
    ReadListStep(props, files, text, done);
  }
}
