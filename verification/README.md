# rapido in Dafny

rapido builds an initramfs from manifests, boots it in a virtual machine and hands
parameters over on the kernel command line. This project models the parts of it that
keep state and proves what they promise, for every input and over whole runs:

- the **newc cpio writer and walker**: bytes, offsets, inode numbers, alignment, and
  the proof that the walker reads back what the writer wrote
  (`Padding`, `Newc`, `ArchiveName`, `Cpio`, `Walker`, `DracutCpio`, `DracutList`);
- the **initramfs gatherer** rapido-cut: the ELF and tree worklists, kernel modules,
  manifest lines and the include stack, over a fixed finite host file system
  (`HostFs`, `Gather`, `ElfWorklist`, `TreeWorklist`, `KmodGather`, `Template`,
  `Manifest`, `ManifestLines`, `Keywords`, `Includes`, and `RapidoCut`, which changes
  its state in place), with the invariants of whole runs (`GatherOnce`, `GatherParents`, `StrictParents`,
  `TreeListing`, `TreeOrder`, `Libraries`, `Autorun`, `IncludeGraph`, `KmodClosure`,
  `KmodRuns`, `Fidelity`, `CleanNames`, `CutArchive`, `Initramfs`);
- the **configuration parser**: a character automaton as reference meaning, and the
  block-splitting loop proved equal to it (`KvAutomaton`, `KvProcess`, `KvConf`, `KvLines`,
  `KvQuoting`, `KvReference`, `KvMultiline`, `KvJoined`);
- the **kernel module index** (`KmodIndex`, `KmodLoad`), the **resource scan** of
  rapido-vm (`VmResources`, `VmNames`) and the **kernel command line** between rapido-vm and
  rapido-init (`KernelCmdline`).

Code that updates fields or loops over variables is a class or a method with loops;
each such method is proved equal to a function, and the properties are lemmas about
the functions. `Strings` and `Numbers` hold the operations of the Rust standard library
in use.

`dafny verify dfyconfig.toml` checks everything.

## Where the code differs from what one might expect

The model follows the code. These points are stated as lemmas or in the definitions:

- The guard at src/bin/dracut-cpio.rs:21 adds alignment and start offset before it
  tests for a multiple of four, so both may be wrong together: `Cpio.GuardIsNotEnough`,
  with the exact condition in `Cpio.GuardExact`.
- A file named `TRAILER!!!` ends a walk, unless alignment zeros follow its name:
  `Walker.TrailerLike`.
- The literal `0111` in `gather_archive_dirs` is the decimal number 111, not the octal
  permission bits, so parents become world-writable: `Gather.PrivateFileOpensParents`,
  with the exact condition in `Gather.ParentModeExact`.
- Paths enter `paths_seen` without being archived through `filter` and through missing
  module files, and then their children lack a parent: `StrictParents.FilterBreaksParents`,
  with the exact condition in `StrictParents.RunAncestorsExact`.
- `autorun` neither looks at `paths_seen` nor enters its destinations there:
  `Initramfs.RepeatsTwice` and `Autorun.LaterLineRepeats`, with the exact condition in
  `Autorun.RunRepeatsExactly` and one to check beforehand in `Initramfs.NothingRepeats`.
- An ELF file that cannot be read to its end leaves names in `libs_seen` that are never
  looked for: `Libraries.MalformedElfLosesNames`, with the exact condition in
  `Libraries.ScanExact`.
- A module whose file is missing counts as present afterwards:
  `KmodClosure.MissingModuleLaterSucceeds`, with the exact condition in
  `KmodClosure.RequestExact` and, over whole manifests, `KmodRuns.ManifestExact`.
- A quoted line that ends in an escaped backslash loses half of the escape when it is
  continued: `KvMultiline.ContinuedResumes`.
- Text behind `${KEY}` is kept up to the next brace only, and a substituted value that
  ends its block is itself examined for a trailing delimiter: `KvReference.TailIsCut` and
  `KvReference.ValueOpensQuote`, with the exact condition in `KvReference.ReferenceExact`.
  The automaton follows the code in both, with no precondition anywhere.
- A manifest that includes itself is never done: `IncludeGraph.SelfIncludeNeverEnds`.
- Resource entries behind a gap are ignored: `VmResources.GapHidesRest`.
- `Cpio.GuardExact` assumes room for a name of five bytes and its padding; the maximum
  of the source is PATH_MAX and nothing changes it.

## Model

| member | source | states |
|---|---|---|
| `KvProcess.ScanValue` | src/kv-conf/src/lib.rs:71-156 | the block-splitting loop, with its quote, escape, comment and variable flags, gives for every value text the value, error or open quote of the character-by-character automaton `Meaning`; no condition on substituted values or braces |
| `KvProcess.CloseOpenBlock` | src/kv-conf/src/lib.rs:117-155 | the chain of trailing-delimiter tests does one automaton step on a whole block; at most one flag is set afterwards, and the comment flag only outside quotes, so the internal assertion never fails |
| `KvProcess.PlainBlock` | src/kv-conf/src/lib.rs:117-155 | a block read in plain state leads the automaton where the closing of the block leads the loop |
| `KvProcess.EscapeBlock` | src/kv-conf/src/lib.rs:78-95 | behind a backslash: an escaped delimiter is kept and the "split boundary" error is unreachable; a line end in quotes means "continue"; anything else is a bad escape |
| `KvProcess.BlankOther` | src/kv-conf/src/lib.rs:98-108 | behind an unquoted blank, a block that is neither white space nor a comment is an error |
| `KvProcess.BlankComment` | src/kv-conf/src/lib.rs:98-102 | a comment behind an unquoted blank ends the value |
| `KvProcess.VarBlock` | src/kv-conf/src/lib.rs:10-31 | `kv_var_sub` on the block behind `$` agrees with the automaton reading `{NAME}` character by character: same errors, same value, same tail cut at the next brace, and the same second look at a delimiter that ends a substituted value |
| `KvMultiline.KeptText` | src/kv-conf/src/lib.rs:158-174 | what an open line leaves in the buffer: its text and one blank for all white space at its end; in double quotes a backslash behind the text takes the blank away, unless white space stands before the backslash |
| `KvProcess.ProcessLine` | src/kv-conf/src/lib.rs:39-180 | `kv_process` on any buffer: result and remaining buffer are those of `LineMeaning` |
| `KvLines.NothingOnLine` | src/kv-conf/src/lib.rs:44-48 | a line of white space, or with `#` as its first other character, assigns nothing and cannot fail |
| `KvLines.CommentSkipped` | src/kv-conf/src/lib.rs:44-48 | comments and blank lines can stand between any lines of a file |
| `KvLines.EqualsNeeded` | src/kv-conf/src/lib.rs:51-56 | a line with text, no comment and no `=` is refused |
| `KvLines.KeyDecides` | src/kv-conf/src/lib.rs:51-63 | the key is the text up to the first `=`; it is refused if and only if it is empty or holds one of ten characters, otherwise the line is the value behind it |
| `KvLines.TrailingComment` | src/kv-conf/src/lib.rs:98-108 | blanks behind a value are ignored, and so is a comment behind them |
| `KvLines.TrailingText` | src/kv-conf/src/lib.rs:98-108 | anything else behind blanks is refused |
| `KvLines.BadEscapeRefused` | src/kv-conf/src/lib.rs:78-88 | a backslash outside quotes escapes the six delimiters and nothing else |
| `KvLines.LineTooLong` | src/kv-conf/src/lib.rs:189-194 | a physical line of more than 102400 bytes fails the file |
| `KvConf.ProcessAppend` | src/kv-conf/src/lib.rs:205-232 | the line loop with its carried buffer and in-place map equals the recursive meaning of the file, including the map left behind by a failure |
| `KvConf.FirstLine` | src/kv-conf/src/lib.rs:182-196 | the next physical line is the prefix of the input up to and with its first line end, or all of it |
| `KvConf.FilesCompose` | src/kv-conf/src/lib.rs:205-232 | behind whole lines, the rest of a file is read with the map, and inside the open quote if there is one, that they lead to; an error in them is the error of the whole file |
| `KvConf.OpenQuoteFails` | src/kv-conf/src/lib.rs:182-232 | any text is read without an error if and only if every line is and no quote is open behind the last one, however many lines ago it was opened; an open quote fails the run with the map of the lines before it |
| `KvConf.LastLineDecides` | src/kv-conf/src/lib.rs:205-232 | behind any whole lines, with whatever quote is open behind them, a last line that leaves a quote open fails the run, and every other line ends it |
| `KvConf.FileRoundTrip` | src/kv-conf/src/lib.rs:205-232 | a file that writes any list of assignments, each in any of three quoting styles, reads back as those assignments in order: the last one to a key wins |
| `KvQuoting.QuotedRoundTrip` | src/kv-conf/src/lib.rs:71-179 | `KEY='v'`, `KEY="v escaped"` and `KEY=v` with all six delimiters escaped, with or without a line end, each read back as exactly (KEY, v) for every newline-free v |
| `KvQuoting.RunQuoted` | src/kv-conf/src/lib.rs:71-156 | every quoting style leads the automaton from its start to the closed plain state with exactly the value |
| `KvQuoting.ReferenceKnown` | src/kv-conf/src/lib.rs:20-27 | outside single quotes `${NAME}` is followed by the stored value if and only if the key is in the map, and is an error otherwise |
| `KvReference.ReferenceExact` | src/kv-conf/src/lib.rs:10-31 | a line `KEY=${NAME}tail` yields the stored value and the tail if and only if no brace stands in the tail but at its end and, when the reference is the last thing in the input, the value ends in neither a delimiter nor a line end |
| `KvReference.TailIsCut` | src/kv-conf/src/lib.rs:28-30 | `K=${A}b}c` loses the text behind the brace |
| `KvReference.ValueOpensQuote` | src/kv-conf/src/lib.rs:110-131 | `K=${A}` at the end of the input opens a quote if the value of A ends in one |
| `KvMultiline.ContinuedResumes` | src/kv-conf/src/lib.rs:158-175 | the kept buffer re-scans without error to the same open quote; it is ready for plain text if and only if the line did not end in an escaped backslash |
| `KvJoined.LinesJoin` | src/kv-conf/src/lib.rs:158-232 | any number of physical lines of one value, whatever their quotes, references, blank lines and backslashes, read like the single line they join to |
| `KvJoined.JoinedReads` | src/kv-conf/src/lib.rs:158-175 | every line of the joined line is read from the quote the line before left open, ready for text if and only if the text before it does not end in an escaped backslash |
| `KvMultiline.ContinuedKeeps` | src/kv-conf/src/lib.rs:172-174 | a line that leaves a quote open leaves a buffer that is not empty |
| `KvJoined.OpenLinesFail` | src/kv-conf/src/lib.rs:182-232 | a value whose lines all leave a quote open, behind any complete text, fails at the end of the file |
| `KvJoined.MultilineRoundTrip` | src/kv-conf/src/lib.rs:158-232 | a quoted value written over any number of physical lines, blank lines and lines joined by a backslash included, reads back as its pieces with one blank, or none, for every line end |
| `Padding.PadLen` | src/cpio/src/lib.rs:464-466 | the padding is smaller than the alignment and its subtraction never underflows |
| `Padding.PadToPow2` | src/cpio/src/lib.rs:464-466 | for every power of two the padded offset is a multiple of it |
| `Padding.PadToFour` | src/cpio/src/lib.rs:464-466 | for every multiple of four, power of two or not, the padded offset is a multiple of four |
| `Padding.PadFour` | src/cpio/src/lib.rs:464-466 | with alignment 4 the bit mask is the distance to the next multiple of four |
| `Newc.FieldRoundTrip` | src/cpio/src/lib.rs:536-548 | every 32-bit number written as eight hexadecimal digits reads back |
| `Newc.HeaderRoundTrip` | src/cpio/src/lib.rs:536-572 | a header reads back as its metadata and name size, for every field value; refused exactly when the name size is 0 or above PATH_MAX + 1 |
| `Newc.HeaderFields` | src/cpio/src/lib.rs:14-22 | magic number and thirteen fields of a header, each at its place |
| `Newc.TrailerText` | src/cpio/src/lib.rs:469-469 | the name of the trailer is `TRAILER!!!` |
| `Newc.BadFieldRefused` | src/cpio/src/lib.rs:538-548 | a field with a byte that is no hexadecimal digit is refused |
| `ArchiveName.TrimKeepsComponents` | src/cpio/src/lib.rs:201-230 | trimming `/` and `./` never changes which components a path names |
| `ArchiveName.TrimmedIsSolid` | src/cpio/src/lib.rs:201-230 | a trimmed path with at least one component starts with neither `/` nor `./` |
| `Cpio.ArchiveState.constructor` | src/cpio/src/lib.rs:92-101 | a new state is consistent: nothing written, offset 0, first inode number |
| `Cpio.MdFromExact` | src/cpio/src/lib.rs:119-198 | metadata shows mode, owner, time, size, links and device numbers of the file, with fixed owner and time in place; it fails if and only if a number in use does not fit 32 bits |
| `Cpio.ArchiveState.ArchivePath` | src/cpio/src/lib.rs:232-286 | success exactly for calls that pass validation; then the output is the archive of the accepted calls, otherwise output, offset and inode number are as before |
| `Cpio.ArchiveState.ArchiveSymlink` | src/cpio/src/lib.rs:288-358 | the same for symlinks, which store the length of the target |
| `Cpio.ArchiveState.ArchiveFile` | src/cpio/src/lib.rs:360-462 | the same for files, and exactly when the alignment assertion panics or a short copy is reported |
| `Cpio.ArchiveState.ArchiveTrailer` | src/cpio/src/lib.rs:468-503 | appends the padded trailer and returns the number of bytes written |
| `Cpio.SeekAligns` | src/cpio/src/lib.rs:431-438 | at a 4-byte boundary, with alignment and start offset multiples of four, the assertion of `archive_file` holds and all data is 4-aligned |
| `Cpio.DataIsAligned` | src/cpio/src/lib.rs:376-443 | the data of a file longer than a power-of-two alignment of at least four starts at a multiple of it in the output file, whenever the padded name fits |
| `Cpio.SeekExact` | src/cpio/src/lib.rs:376-401 | zeros are injected for files larger than the alignment only, and only if the name field stays within its maximum |
| `Initramfs.InitramfsAligned` | src/bin/rapido-cut.rs:987-991 | file data of more than 4096 bytes stands at a multiple of 4096 in every initramfs whose padded name fits |
| `Cpio.EntryAligned` | src/cpio/src/lib.rs:232-462 | every accepted call from a 4-byte boundary ends at one |
| `Cpio.ArchiveAligned` | src/cpio/src/lib.rs:232-462 | so does every sequence of accepted calls |
| `Cpio.ArchiveSnoc` | src/cpio/src/lib.rs:81-101 | one more call appends exactly its own entry, at the offset and inode number reached by the calls before |
| `Cpio.GuardIsNotEnough` | src/bin/dracut-cpio.rs:21-27 | a concrete alignment, start offset and file that pass the guard and make the assertion of `archive_file` panic |
| `Cpio.PanicAt` | src/cpio/src/lib.rs:383-434 | every start offset that is not a multiple of four, with any alignment from 2 to 2^32 - 2, has a run of accepted calls of less than 2^35 bytes whose next file panics |
| `Cpio.Reach` | src/cpio/src/lib.rs:232-286 | directories alone reach every entry boundary from 112 bytes on |
| `Cpio.GuardExact` | src/bin/dracut-cpio.rs:21-27 | behind the guard, no run of accepted calls panics if and only if the alignment is 0, 1, 2^32 - 1 or a multiple of four |
| `Walker.ArchiveWalker.Next` | src/cpio/src/lib.rs:574-625 | one call of the iterator: entry, end or error, and in each case the new position, as the step function of the walk |
| `Walker.SkipAgrees` | src/cpio/src/lib.rs:598-602 | the walker, which pads by length, skips exactly what the writer, which pads by offset, has written |
| `Walker.ArchiveRoundTrip` | src/cpio/src/lib.rs:574-625 | the walk over any archive followed by anything returns the written entries in order, up to the first that reads like the trailer, and ends cleanly |
| `Walker.TrailerLike` | src/cpio/src/lib.rs:605-608 | an entry ends the walk if and only if it is named `TRAILER!!!` and no alignment zeros follow the name |
| `Walker.NotAnEntry` | src/cpio/src/lib.rs:576-623 | less than a header left is the end; a wrong magic number, a name size of 0 or above PATH_MAX + 1 and a name cut short are errors |
| `Walker.NameReadsBack` | src/cpio/src/lib.rs:515-525 | `name_str` gives the archived name of every NUL-free name, alignment zeros or not |
| `Walker.WalkListsCalls` | src/cpio/src/lib.rs:232-625 | archive round trip: for NUL-free names other than `TRAILER!!!`, the walker lists exactly the archived calls, with trimmed names, metadata, and length zero, target length or file length |
| `Walker.EntryAt` | src/cpio/src/lib.rs:232-462 | the i-th entry starts behind those before it, with inode number `initial_ino + i` modulo 2^32 |
| `Walker.EntryInode` | src/cpio/src/lib.rs:403-425 | the inode number of an entry is readable at its place in the header |
| `DracutCpio.ArchiveLoop` | src/bin/dracut-cpio.rs:16-97 | for every list of paths, exactly how it ends: refused by the guard, stopped at the first line that is too long, names nothing or cannot be archived, crashed if that line is a valid file whose alignment assertion fails at the offset reached, or written; then the output is the padded archive of the listed paths and the result its length, a multiple of 512 |
| `DracutList.ListExact` | src/bin/dracut-cpio.rs:29-84 | a list of lines, empty ones between them and the last with or without its line end, is read to its end with exactly the calls that archive its paths in order: line i as path, the metadata of the file, the content of a regular file, the target of a symlink, no data otherwise |
| `DracutList.ListReadExactly` | src/bin/dracut-cpio.rs:29-84 | with a safe alignment a list is read to its end if and only if every path on it names a file that can be archived |
| `DracutList.LongLineFails` | src/bin/dracut-cpio.rs:38-40 | a line too long for a path stops the loop |
| `DracutCpio.ArchiveOne` | src/bin/dracut-cpio.rs:71-83 | one listed path, archived by kind, ends as validation, alignment assertion and copy say, and adds its call on success |
| `DracutCpio.SafeListNeverPanics` | src/bin/dracut-cpio.rs:21-27 | behind the guard and with a safe alignment no list of paths crashes the loop |
| `DracutCpio.CrashExact` | src/bin/dracut-cpio.rs:16-97 | behind the guard some list of paths crashes the loop on some host if and only if the alignment is not safe |
| `DracutCpio.PaddedArchiveReads` | src/bin/dracut-cpio.rs:85-96 | the padded archive is whole 512-byte blocks and the walker reads it back as exactly the listed paths |
| `HostFs.SortSorts` | src/bin/rapido-cut.rs:723-800 | directory names are sorted, and none is lost or repeated |
| `HostFs.LessExact` | src/bin/rapido-cut.rs:766-767 | names are ordered by their first differing byte, and a name before its extensions |
| `HostFs.AbsoluteRender` | src/bin/rapido-cut.rs:1172-1185 | an absolute path written as text parses back to itself |
| `HostFs.AbsoluteRelative` | src/bin/rapido-cut.rs:1172-1185 | a relative name is one below the working directory |
| `Gather.ParentModeIsDir` | src/bin/rapido-cut.rs:297-367 | the mode given to parent directories is a directory with the permissions of the child, traversable by everyone if the child was not a directory |
| `Gather.ParentModeExact` | src/bin/rapido-cut.rs:321-332 | the literal also makes the parents of anything but a directory readable for the group and readable and writable for everyone; they get just the child's permissions and the traversal bits if and only if the child had those bits |
| `Gather.PrivateFileOpensParents` | src/bin/rapido-cut.rs:321-332 | a file of mode 0600 gets world-writable parents |
| `Gather.SearchFirst` | src/bin/rapido-cut.rs:164-177 | a name without a separator is found in the first directory of the search path that has it, and not at all if and only if none has it |
| `Gather.LocateExact` | src/bin/rapido-cut.rs:113-186 | a name with a separator is the path it is; a library is looked for in the search directories of the file that needs it and then in those of the system, everything else in the directories of its kind |
| `Gather.ExecutableBits` | src/bin/rapido-cut.rs:448-449 | a file is executable if one of the three execute bits is set |
| `RapidoCut.Cut.GatherDirs` | src/bin/rapido-cut.rs:297-367 | parents archived and seen as `Dirs` says |
| `RapidoCut.Cut.ScanElf` | src/bin/rapido-cut.rs:265-288 | new needed names, in order; they stay seen even when a later one cannot be read |
| `RapidoCut.Cut.ElfRound` | src/bin/rapido-cut.rs:376-482 | one entry of the ELF worklist: what is archived, seen and pushed |
| `RapidoCut.Cut.GatherElfs` | src/bin/rapido-cut.rs:369-485 | the pop-and-push loop equals the terminating function `Elfs` |
| `RapidoCut.Cut.DataItem` | src/bin/rapido-cut.rs:730-797 | one item of the tree worklist |
| `RapidoCut.Cut.GatherData` | src/bin/rapido-cut.rs:723-800 | the tree worklist equals `TreeRun` |
| `RapidoCut.Cut.GatherKmod` | src/bin/rapido-cut.rs:684-721 | the index files are archived once, before the first request; a missing module is ignored on demand |
| `ManifestLines.DirLineAdds` | src/bin/rapido-cut.rs:1187-1207 | a successful `dir` line leaves its path seen; a new one is archived as a directory with mode 0755 behind its missing parents, and nothing else is |
| `ManifestLines.SlinkLineAdds` | src/bin/rapido-cut.rs:1209-1231 | a successful `slink` line archives a new path as a symlink with the second name as target; the target is looked at only if the path is new |
| `ManifestLines.FileLineAdds` | src/bin/rapido-cut.rs:1233-1262 | a successful `file` line archives a new path as an empty file, or with the metadata and contents of the opened source |
| `ManifestLines.FilterHides` | src/bin/rapido-cut.rs:1459-1463 | a filtered path is in the archive at the end of any lines but `autorun` if and only if it was there before the filter |
| `RapidoCut.Cut.ManifestAutoruns` | src/bin/rapido-cut.rs:1433-1450 | an `autorun` line and its locations, numbered over the whole run |
| `RapidoCut.Cut.ManifestAutorun` | src/bin/rapido-cut.rs:1264-1303 | one autorun location: the directory before the first, no look at the seen paths |
| `RapidoCut.Cut.ManifestParseOne` | src/bin/rapido-cut.rs:1331-1477 | one manifest line; left-over parameters are an error after the fact |
| `Keywords.DirKeyword` | src/bin/rapido-cut.rs:1350-1350 | a `dir` line archives a new path as a directory of mode 0755 behind its parents |
| `Keywords.SlinkKeyword` | src/bin/rapido-cut.rs:1351-1358 | a `slink` line archives a new path as a symlink to the second name |
| `Keywords.EmptyFileKeyword` | src/bin/rapido-cut.rs:1367-1374 | a `file` line with one name archives a new path as an empty file |
| `Keywords.FileKeyword` | src/bin/rapido-cut.rs:1367-1374 | a `file` line with two names archives the contents and metadata of the file that opening the second leads to, through symlinks |
| `Keywords.TreeKeyword` | src/bin/rapido-cut.rs:1451-1458 | a `tree` line archives the parents of the first name and then the listing of the tree at the second |
| `Keywords.BinKeyword` | src/bin/rapido-cut.rs:1384-1403 | a file that is found is archived under its own path unless it was seen; a missing one is an error for `bin` and nothing for `try-bin` |
| `Keywords.KmodKeyword` | src/bin/rapido-cut.rs:1404-1432 | `kmod` and `try-kmod` request the module they name; only `try-kmod` forgives a missing one |
| `Keywords.AutorunKeyword` | src/bin/rapido-cut.rs:1433-1450 | an `autorun` location goes to `/rapido_autorun/NNN-name` with the next number, behind the directory if it is the first |
| `Keywords.FilterKeyword` | src/bin/rapido-cut.rs:1459-1463 | a `filter` line marks its path as seen and does nothing else |
| `Keywords.NoKeyword` | src/bin/rapido-cut.rs:1343-1347 | blank lines and comments do nothing |
| `Keywords.TooMany` | src/bin/rapido-cut.rs:1465-1475 | one parameter more than a keyword takes is an error, and so is every unknown keyword |
| `Keywords.TooFew` | src/bin/rapido-cut.rs:1349-1470 | a keyword alone is an error |
| `Includes.IncludeKeyword` | src/bin/rapido-cut.rs:1359-1366 | `include` and one name opens the manifest that the name is found at; no other line opens one |
| `RapidoCut.Cut.ManifestParse` | src/bin/rapido-cut.rs:1479-1530 | the stack of open manifests, read from its last element, executes exactly the in-place expansion of every manifest, and ends whenever no manifest leads back to itself |
| `IncludeGraph.RanksExact` | src/bin/rapido-cut.rs:1359-1366 | the measure that ends the loop exists if and only if no manifest leads back to itself |
| `IncludeGraph.SelfIncludeNeverEnds` | src/bin/rapido-cut.rs:1479-1530 | a manifest that starts by including itself is never done: the stack grows with every round and nothing is archived |
| `Includes.NextLine` | src/bin/rapido-cut.rs:1359-1366 | one line of the top manifest: an `include` puts the whole expansion of its target in front of what is left |
| `Includes.ExpandConcat` | src/bin/rapido-cut.rs:1479-1530 | expansion is line by line: two parts in a row expand to their expansions in a row |
| `Includes.ExpandNoInclude` | src/bin/rapido-cut.rs:1359-1366 | an expansion holds no `include` that could still be opened |
| `GatherOnce.DirsExt` | src/bin/rapido-cut.rs:297-367 | archiving parents archives only new paths, each once, all seen afterwards, and never the child |
| `GatherOnce.ElfStepExt` | src/bin/rapido-cut.rs:369-485 | so does every round of the ELF worklist, which sees after archiving |
| `GatherOnce.DataRoundExt` | src/bin/rapido-cut.rs:723-800 | and every round of the tree worklist, which sees before archiving |
| `GatherOnce.OnceKept` | src/bin/rapido-cut.rs:406-481 | at most once is kept by every such step |
| `GatherParents.SeenSupports` | src/bin/rapido-cut.rs:297-325 | the early return on a seen directory is sound: all ancestors of its children are archived, or hidden behind a path seen without being archived |
| `GatherParents.DirsParents` | src/bin/rapido-cut.rs:297-367 | after archiving parents every proper ancestor is archived or so hidden |
| `GatherParents.ElfStepParents` | src/bin/rapido-cut.rs:369-485 | parents stand before children after every ELF round |
| `GatherParents.DataRoundParents` | src/bin/rapido-cut.rs:723-800 | and after every tree round, though children skip the check of their parents |
| `ElfWorklist.StepMeasure` | src/bin/rapido-cut.rs:369-485 | whatever one round pushes is paid for by a host path that has become seen: the worklist ends on every finite file system |
| `ElfWorklist.ElfsExt` | src/bin/rapido-cut.rs:369-485 | a whole ELF worklist archives only new paths, each once |
| `ElfWorklist.ElfsParents` | src/bin/rapido-cut.rs:369-485 | a whole ELF worklist keeps parents before children |
| `ElfWorklist.ElfsServed` | src/bin/rapido-cut.rs:369-485 | at every round, each library name seen is pending or has been found by the one lookup made for it, in the search directories of the first archived file that needs it, and each symlink target likewise, so none is left when the worklist ends |
| `TreeWorklist.RoundMeasure` | src/bin/rapido-cut.rs:723-800 | whatever one tree round pushes is paid for by a destination that has become seen: the worklist ends |
| `TreeWorklist.TreeLocal` | src/bin/rapido-cut.rs:723-800 | the listing of a tree depends only on what was seen below its own destination |
| `TreeListing.TreeRefines` | src/bin/rapido-cut.rs:723-800 | with any worklist beneath it, an item is worked off as its recursive listing, before anything beneath it |
| `TreeListing.ForestRefines` | src/bin/rapido-cut.rs:723-800 | the children pushed in ascending order are worked off as listings in descending order |
| `TreeListing.TreeRunLists` | src/bin/rapido-cut.rs:723-800 | a `tree` line archives the parents of its destination and then exactly the preorder listing of the source, siblings in descending name order, cut at every destination already seen; it ends as the listing ends |
| `TreeOrder.TreeComplete` | src/bin/rapido-cut.rs:757-779 | a tree none of whose destinations was seen is archived completely, every file at the same place below the destination |
| `TreeOrder.TreeDescends` | src/bin/rapido-cut.rs:763-778 | a directory stands before its contents, which are ordered by descending name of the child they belong to |
| `Manifest.RunKeeps` | src/bin/rapido-cut.rs:1331-1477 | over any sequence of lines but `autorun`, from any state: only new paths are archived, each once and seen afterwards, and parents stay before children |
| `Manifest.ManifestRunSound` | src/bin/rapido-cut.rs:1331-1477 | the same from the start: at most once, and parents first up to paths seen without being archived |
| `Libraries.RunServes` | src/bin/rapido-cut.rs:1331-1477 | between any two lines, `autorun` included, everything the ELF gatherer met is resolved |
| `Libraries.RunResolves` | src/bin/rapido-cut.rs:369-485 | after a successful run over any lines, on a host without dangling links, malformed ELF files or not: every library that an archived ELF file needs, if the file has an execute bit or was found as a library, was found by the lookup for the first archived file that needs it, at a seen path, unless that file cannot be read to its end; every archived symlink has its canonical target seen, and every archived directory all its entries |
| `StrictParents.EveryLibraryArchived` | src/bin/rapido-cut.rs:369-485 | on runs without filters and modules the path so found is archived |
| `Libraries.MalformedElfLosesNames` | src/bin/rapido-cut.rs:265-288 | why files that cannot be read to their end are an exception: a name met by a failed scan is never looked for again |
| `Libraries.ScanExact` | src/bin/rapido-cut.rs:265-288 | a scan looks for every name it enters if and only if all names can be read, or none before the unreadable one is new |
| `Autorun.RunRepeatsExactly` | src/bin/rapido-cut.rs:1264-1303 | over any run of any lines, finished or not, no destination is archived twice if and only if no line other than `autorun` archives the directory or a numbered destination of the `autorun` lines |
| `Autorun.NumbersApart` | src/bin/rapido-cut.rs:1278-1282 | the numbers keep the destinations of all locations of a run apart, whatever the file names |
| `Initramfs.NothingRepeats` | src/bin/rapido-cut.rs:1264-1303 | a condition to check before the run: nothing is archived twice, whatever the `autorun` lines, if "rapido_autorun" is a component of no host path, directory entry, module path or name of another line |
| `Initramfs.RepeatsTwice` | src/bin/rapido-cut.rs:1286-1294 | `dir /rapido_autorun` and then `autorun /x` archives the directory twice on every host with a file at /x |
| `Autorun.AutorunRepeats` | src/bin/rapido-cut.rs:1286-1294 | one way to fail: the directory was archived before the first location |
| `Autorun.LaterLineRepeats` | src/bin/rapido-cut.rs:1296-1300 | the other way: a location leaves its destination unseen, so a later `dir` line archives it again |
| `StrictParents.RunAncestorsExact` | src/bin/rapido-cut.rs:297-367 | over any run without `autorun`, finished or not: all proper ancestors of an archived path free of ".." stand before it if and only if none of them was seen without being archived |
| `StrictParents.FilterBreaksParents` | src/bin/rapido-cut.rs:1459-1463 | `filter /a` and then `dir /a/b` archives the child alone, on every host |
| `StrictParents.EveryAncestorArchived` | src/bin/rapido-cut.rs:297-367 | after any successful sequence of dir, slink, file, tree, bin and try-bin lines, every proper ancestor of an archived path free of "..", but the root, stands before it |
| `StrictParents.RunSolid` | src/bin/rapido-cut.rs:1331-1477 | on such runs every seen path is archived |
| `Fidelity.RunFaithful` | src/bin/rapido-cut.rs:1331-1477 | over any sequence of lines, `autorun` included, every archived entry shows its source: destination as name, metadata of the host, contents of regular files, canonical target (ELF gatherer) or own text (tree) of symlinks |
| `Fidelity.ElfStepFaithful` | src/bin/rapido-cut.rs:413-480 | one ELF round archives what the host has |
| `Fidelity.DataRoundFaithful` | src/bin/rapido-cut.rs:743-797 | one tree round copies what the host has |
| `Fidelity.KmodFromHost` | src/bin/rapido-cut.rs:487-503 | an archived module file is a regular file with its own contents |
| `Fidelity.DataAt` | src/cpio/src/lib.rs:445-459 | the data of the i-th call stands at its data offset in the archive |
| `Fidelity.InitramfsCarriesHost` | src/bin/rapido-cut.rs:1479-1530 | the initramfs of any manifest run holds, at the data offset of every entry, the bytes of the host file or the target it was archived from |
| `CutArchive.NameComponents` | src/cpio/src/lib.rs:201-230 | the archived name has the components of the destination |
| `CleanNames.RunClean` | src/bin/rapido-cut.rs:1331-1477 | every component of an archived path comes from a host path, a directory entry, a module path or a name in the manifest: any property of those holds of all destinations of any run |
| `Initramfs.InitramfsReads` | src/bin/rapido-cut.rs:1479-1530 | on a host and for a manifest with NUL-free names other than `TRAILER!!!`, the walker lists the initramfs of any lines, `autorun` included, as one entry per archived path, in order, under its own components, no name twice if and only if no path was archived twice |
| `KmodIndex.FindModuleIs` | src/kmod-parser/src/lib.rs:263-281 | lookup without its recursion: the name itself before its dash-free form, a module name before an alias |
| `KmodIndex.SpellingIrrelevant` | src/kmod-parser/src/lib.rs:263-281 | every spelling of a module name that is not itself an alias finds the module |
| `KmodIndex.AliasFinds` | src/kmod-parser/src/lib.rs:268-272 | an alias finds the module it stands for, unless a module has that name itself |
| `KmodLoad.ExtractsName` | src/kmod-parser/src/lib.rs:61-75 | `name.ko`, plain or compressed, in any directory, is the module `name` with dashes replaced |
| `KmodLoad.KmodContext.LoadHardDependencies` | src/kmod-parser/src/lib.rs:107-150 | every line of modules.dep enters the index; a second entry for a module is an error |
| `KmodLoad.BuiltinExact` | src/kmod-parser/src/lib.rs:210-240 | modules.builtin adds exactly the modules it names and replaces none |
| `KmodLoad.SoftExact` | src/kmod-parser/src/lib.rs:153-181 | modules.softdep appends to every known module exactly the names its lines list, each to the list of the last `pre:` or `post:` before it, in order, and changes nothing else |
| `KmodLoad.WeakExact` | src/kmod-parser/src/lib.rs:184-208 | modules.weakdep appends to every known module exactly the names of its lines, in order |
| `KmodLoad.AliasExact` | src/kmod-parser/src/lib.rs:242-261 | the last line of modules.alias for a name decides |
| `KmodLoad.NewContext` | src/kmod-parser/src/lib.rs:77-105 | the five files in order; only modules.builtin has to exist |
| `KmodLoad.DepHasLines` | src/kmod-parser/src/lib.rs:107-150 | every line of modules.dep is in the index it produces, and keys are dash-free |
| `KmodLoad.DepLineExact` | src/kmod-parser/src/lib.rs:111-136 | a line of modules.dep is a loadable module under the name of its file, with that path and the paths behind the colon as dependencies |
| `KmodLoad.DuplicateFails` | src/kmod-parser/src/lib.rs:137-146 | two lines for the same module are an error |
| `KmodLoad.BuildExact` | src/kmod-parser/src/lib.rs:77-105 | the index can be built if and only if modules.builtin exists and modules.dep, if it exists, names no module twice |
| `KmodLoad.IndexFindsModules` | src/kmod-parser/src/lib.rs:77-281 | every module of modules.dep is found under every spelling that is not an alias, loadable, with the path and dependencies of its line, whatever the other files say |
| `KmodGather.KmodOneSound` | src/bin/rapido-cut.rs:533-580 | one module file: at most once, parents first, seen afterwards, and archived if it was new and the call succeeded |
| `KmodGather.KmodRequestSound` | src/bin/rapido-cut.rs:533-621 | module requests keep at most once and parents first, and leave library names alone |
| `KmodClosure.RequestCloses` | src/bin/rapido-cut.rs:533-621 | one request from a state where everything seen as needed is complete leaves such a state, with the module and all its hard dependencies archived |
| `KmodClosure.RequestExact` | src/bin/rapido-cut.rs:533-621 | a successful request means that the module is archived if and only if it was not seen without being archived before; and with all its hard dependencies if and only if the same holds for them, or the module was complete already |
| `KmodClosure.RequestBringsSoft` | src/bin/rapido-cut.rs:594-619 | a successful request for a new module leaves the files of its loadable soft and weak dependencies seen, and archived if the host has them and they were no phantoms before |
| `KmodClosure.OneCopies` | src/bin/rapido-cut.rs:549-566 | a new module file is archived from the module directory of the host |
| `KmodClosure.DbFilesArchived` | src/bin/rapido-cut.rs:655-675 | each of the fifteen module database files is archived if the host has it |
| `KmodRuns.ReadyCloses` | src/bin/rapido-cut.rs:655-675 | archiving the module database files before the first request keeps what is complete complete |
| `KmodRuns.ManifestCloses` | src/bin/rapido-cut.rs:533-721 | over any successful manifest without `autorun`, with a transitively closed modules.dep and no successful request for what was first seen in another way: every loadable module of a `kmod` line, and of a `try-kmod` line that found it, is archived with all its hard dependencies, each once |
| `KmodRuns.ManifestExact` | src/bin/rapido-cut.rs:533-721 | over any successful manifest without `autorun` and any modules.dep: the module of a successful request is archived at the end if and only if it was no path seen without being archived when it was requested, and its hard dependencies likewise |
| `KmodClosure.MissingModuleLaterSucceeds` | src/bin/rapido-cut.rs:552-566 | a request that failed because the module file is missing makes the next request for it succeed without archiving anything |
| `Template.Substitute` | src/bin/rapido-cut.rs:1116-1153 | the loop over `$`-blocks with its flag equals the function `SubPathVars` |
| `Template.TemplateExpands` | src/bin/rapido-cut.rs:1116-1153 | any list of literals and `${KEY}` references expands to literals and values side by side, never re-scanning a value, and fails if any key is missing |
| `Template.DollarNeedsBrace` | src/bin/rapido-cut.rs:1116-1153 | a dollar sign that is not followed by an opening brace is an error |
| `VmResources.OutsideIff` | src/bin/rapido-vm.rs:62-107 | a name changes nothing if and only if it does not start with `rapido-rsc`; all others are taken or malformed |
| `VmResources.VmResourcesGet` | src/bin/rapido-vm.rs:109-147 | the loop over the walker with its flag and break equals the early-exit scan of the walked entries |
| `VmNames.CpuName` | src/bin/rapido-vm.rs:66-75 | `rapido-rsc/cpu/` and a number of 32 bits sets the CPU count; anything else behind it is refused |
| `VmNames.CpuDecimal` | src/bin/rapido-vm.rs:66-75 | in particular every decimal number below 2^32 |
| `VmNames.MemName` | src/bin/rapido-vm.rs:77-87 | `rapido-rsc/mem/` and a number of 64 bits with an optional letter mMgG sets the memory size to that text; anything else behind it is refused |
| `VmNames.NetIs` | src/bin/rapido-vm.rs:96-98 | `rapido-rsc/net` switches networking on |
| `VmNames.OtherName` | src/bin/rapido-vm.rs:99-102 | every other name changes nothing |
| `VmNames.FullScanMeans` | src/bin/rapido-vm.rs:109-147 | a full scan succeeds if and only if the archive can be read and no cpu or mem name is bad; then the last name of each kind decides |
| `VmNames.ResourcesMean` | src/bin/rapido-vm.rs:109-147 | the answer of `vm_resources_get` for names that stand together: two CPUs, 512M and no network unless a name says otherwise |
| `VmNames.FieldIsName` | src/bin/rapido-vm.rs:132-135 | the name looked at is the archived name, unless alignment zeros follow it |
| `VmResources.EarlyIsFull` | src/bin/rapido-vm.rs:132-143 | when the resource names stand together and the archive can be read, the early exit gives exactly the result of the full scan, errors included |
| `VmResources.GapHidesRest` | src/bin/rapido-vm.rs:138-141 | what the early exit computes otherwise: exactly the full scan up to the first gap behind the first block of resource names; nothing behind the gap is looked at |
| `KernelCmdline.BuildCmdline` | src/bin/rapido-vm.rs:322-439 | the command line put together push by push is the words in order, each behind a blank |
| `KernelCmdline.KcliParse` | src/bin/rapido-init.rs:66-165 | the word loop with its in-place fields equals the left-to-right reading of the words |
| `KernelCmdline.CmdlineRoundTrip` | src/bin/rapido-init.rs:66-165 | reading back the command line gives exactly the console, number, machine id, terminal size, host name and tap addresses that were put in, for extra parameters that reuse no key |
| `KernelCmdline.DecReads` | src/bin/rapido-vm.rs:322-325 | the machine number on the command line is the number of the machine |
| `KernelCmdline.HexReads` | src/bin/rapido-vm.rs:322-325 | the machine id is the machine number in base 16 |
| `KernelCmdline.BadWordsRefused` | src/bin/rapido-init.rs:66-165 | a terminal size without comma or a MAC word without `=` makes the command line an error |
| `KernelCmdline.BadSizeRefused` | src/bin/rapido-init.rs:66-165 | so does a terminal size that is not two numbers of 32 bits |

## Left out

- Real file I/O: the host is a fixed finite map from paths to nodes, archives are byte sequences; reflink copies, buffering and errors in the middle of a write other than a short copy do not occur.
- `stat` and `canonicalize`: a node carries its own metadata, directory listing, link text and canonical target; device numbers are already split into major and minor (src/cpio/src/lib.rs:136-147).
- 64-bit offsets: `off` is unbounded. Inode numbers wrap at 2^32 as in a release build.
- ELF section parsing: a file is "not an ELF file" or a list of search paths and needed names, any of which may be unreadable.
- UTF-8 validity and white space outside ASCII: configuration text and manifest words are ASCII characters, paths are bytes.
- Library search paths of builds other than x86_64.
- `kv_conf_process_append_separate`, which differs from the modelled function only in the map that references read from.
- The panic of `gather_archive_dirs` on a relative path (reachable through a relative ELF search path) is an error result in the model.
- Line numbers in error messages, debug output and usage texts.
- Splitting manifest text into lines and words, and the limit of 16 KiB on a manifest line: lines arrive as lists of words.
- Manifests that lead back to themselves: `RapidoCut.Cut.ManifestParse` is stated for includes without cycles, of any shape and depth; on a cycle the loop of the source ends only if a line fails first.
- The fixed entries that `main` of rapido-cut adds around the manifests (`/rapido.conf`, rapido-init, default symlinks, the module directory symlink) and its argument handling.
- Choosing the kernel release and the module directory (src/bin/rapido-cut.rs:635-652): the module index and its two roots are given.
- QEMU arguments, pid files, MAC hashing and the discovery of tap devices in rapido-vm: the tap names and addresses are given.
- Mounting, module loading, networking, systemd and the shell in rapido-init.
- bash-completion, lscpio and src/lib.rs: completion scripts, a printing loop over the walker and the lookup of configuration files, without state of their own.
- The bytes that `archive_file` and `archive_loop` leave behind when they fail or panic half way.
