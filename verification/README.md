# hdiffz GUI core, modelled in Dafny

The program is a Windows front-end for the `hdiffz.exe` binary-diff tool.
It has two tabs. The create tab makes a patch from an old and a new file or
directory, or verifies an existing patch. The apply tab applies a patch to
an old file or directory. Almost all of `main.go` builds the window. This
model covers the small decision layer inside it:

- validating a request and building the exact argument vector for `hdiffz.exe`
  (`createPatch`, `verifyPatch`, `applyPatch`);
- classifying a path as unknown, file or directory (`getPathType`);
- the content-equality pre-check (`FastHashCompare`, `fastMD5`, `compare`);
- the code-page policy for decoding the tool's captured output;
- the automatic names proposed for the patch file and for the apply output
  (`updatePatchName`, `updateApplyName`);
- locating the tool next to the program and remembering its path
  (`executeCommand` up to the process start).

Everything is a pure function over an abstract filesystem. The filesystem
is a map from path to either an inspectable entry (directory flag, size,
content, whether reading it succeeds) or an entry that cannot be stat-ed.
A path missing from the map does not exist. Two things are parameters:
the MD5 digest, as a function from content to string, and the GBK
converter, as a partial function from bytes to bytes.

Modules:

| file | module | content |
|---|---|---|
| types.dfy | `Types` | `Option`, `Result`, `byte` |
| filesystem.dfy | `FileSystem` | the abstract filesystem, `Stat`, `PathType` |
| paths.dfy | `PathNames` | `Base`, `Ext`, `Dir`, `Join`, `TrimSuffix` with a backslash separator |
| naming.dfy | `AutoNaming` | proposed patch and output names |
| commands.dfy | `Commands` | validation and argument vectors, and positional decoders as their inverses |
| hashcompare.dfy | `HashCompare` | the size-then-digest comparison |
| decoding.dfy | `OutputDecoding` | the GBK / pass-through policy |
| launcher.dfy | `Launcher` | tool lookup, and a request from validation to launch |

Behaviour of the code worth knowing:

- A failed tool lookup is not terminal. `executeCommand` probes for
  `hdiffz.exe` on every call and only remembers successes
  (`Launcher.FailedLookupIsRetried`). When the program's own path cannot be
  determined, the path found earlier is reused without checking it again.
- Only `createPatch` checks that paths exist and that their kinds match.
  `verifyPatch` checks only that the three fields are filled in.
- The existence check rejects only a path that does not exist. A path that
  exists but cannot be stat-ed passes the check, gets the kind `Unknown`,
  and so also passes the kind check.
- Output is GBK-decoded only under code page 936.
- `applyPatch` ignores the apply tab's skip-verify box.

## Model

| member | source | states |
|---|---|---|
| `FileSystem.Stat` | main.go:521-525 | the empty path and paths absent from the filesystem are "does not exist"; a present entry is returned as it is; an inaccessible one is a different failure |
| `FileSystem.PathType` | main.go:405-418 | `Unknown` exactly for the empty path or any stat failure; `Directory` exactly for a stat-able directory; `File` for every other stat-able entry |
| `PathNames.TrimSuffix` | main.go:429 | removing a suffix that is present leaves the part that, followed by the suffix, gives the input back; otherwise the input is unchanged |
| `PathNames.Base` | main.go:426 | the base name is "." for the empty path and a lone separator for a path of separators only; otherwise it is the separator-free tail of the path, with trailing separators removed, that runs back to the last separator or to the start |
| `PathNames.Ext` | main.go:427 | the extension is a suffix of the name |
| `PathNames.ExtIsExtensionShaped` | main.go:427 | every extension is empty or starts with its only dot, and has no separator |
| `PathNames.Stem` | main.go:429 | the stem followed by the extension gives the name back |
| `PathNames.Dir` | main.go:435 | "." for a path without a separator; otherwise the prefix before the last separator with its trailing separators removed, or a lone separator when only separators precede it |
| `PathNames.Join` | main.go:436 | an empty or "." directory gives the name and an empty name gives the directory; otherwise the result is the directory, then exactly one separator (none added when the directory already ends in one), then the name |
| `PathNames.DirJoinRoundTrip` | main.go:435-436 | a separator-free name joined to the directory of a path has that directory as its directory and the name as its base |
| `PathNames.ExtOfPlainTail` | main.go:427 | appending text without dots or separators extends a present extension and leaves an absent one absent |
| `PathNames.StemOfDottedSuffix` | main.go:427-429 | a name ending in a dotted suffix with no further dot splits into exactly that stem and that extension |
| `AutoNaming.PatchFileName` | main.go:426-430 | the proposed patch name ends in `_patch.diff`, has extension `.diff`, and has stem `<old stem>_patch` |
| `AutoNaming.OutputFileName` | main.go:490-494 | the proposed output name keeps the old name's extension and has stem `<old stem>_new` |
| `AutoNaming.UpdatePatchName` | main.go:420-438 | nothing changes unless old and new are filled in; then the patch field is replaced by the joined path unless it already equals the bare proposed name; old and new are never touched |
| `AutoNaming.UpdateApplyName` | main.go:484-502 | nothing changes unless old and patch are filled in; then the output field is filled only when it is empty or equals the bare proposed name, and is otherwise kept |
| `AutoNaming.UpdatePatchNameIdempotent` | main.go:420-438 | refreshing the patch name twice gives the same tab as refreshing it once |
| `AutoNaming.UpdateApplyNameIdempotent` | main.go:484-502 | refreshing the output name twice gives the same tab as refreshing it once |
| `AutoNaming.PatchPathNamesPatchFile` | main.go:432-437 | after a refresh the patch field's base name is the proposed patch name; when the field was rewritten, it lies in the old path's directory |
| `AutoNaming.OutputPathKeepsExtension` | main.go:494-501 | an automatically filled output path lies in the old path's directory and its base name has the old file's extension |
| `Commands.BuildCreate` | main.go:504-558 | rejects a missing old, then new, then patch path, then a non-existent old, then new path, then two known kinds that differ; accepts exactly when none applies and then yields the create vector |
| `Commands.BuildVerify` | main.go:560-573 | rejects exactly when a path is missing, and otherwise yields the verify vector |
| `Commands.BuildApply` | main.go:575-597 | rejects a missing old or patch path before a missing output path; accepts exactly when all three are present |
| `Commands.Build` | main.go:504-597 | each button rejects exactly when one of its operation's rules is violated, with the first violated rule in source order, and otherwise yields that operation's argument layout (apply taking only the overwrite box) |
| `Commands.RejectsFirstViolation` | main.go:509-587 | each handler rejects exactly when one of its rules in source order is violated, and reports the first violated rule |
| `Commands.CreateFlagsDistinct` | main.go:538-547 | there is one flag per checked box, each flag appears exactly when its box is checked, and nothing else appears among the flags |
| `Commands.CreateArgsRoundTrip` | main.go:538-552 | an accepted create vector has 3 + (checked boxes) entries: flags first, then exactly old, new, patch; a positional parser recovers the boxes and the paths |
| `Commands.DecodeCreateArgsSound` | main.go:538-552 | every vector the positional parser accepts is the create vector of what it recovers |
| `Commands.ApplyArgsRoundTrip` | main.go:589-595 | an accepted apply vector starts with `--patch`, has `-f` exactly when overwrite is checked, and ends with old, patch, output; the parser recovers the request |
| `Commands.DecodeApplyArgsSound` | main.go:589-595 | every vector the apply parser accepts is the apply vector of what it recovers |
| `Commands.DecodeVerifyArgsSound` | main.go:570 | every vector the verify parser accepts is the verify vector of what it recovers |
| `Commands.VerifyArgsRoundTrip` | main.go:570 | an accepted verify vector is exactly `-t`, old, new, patch, and the parser recovers the paths |
| `Commands.CreateAndApplyOrderDiffer` | main.go:552-595 | create ends with new then patch, while apply ends with patch then new |
| `Commands.VerifyAndApplyIgnoreFilesystem` | main.go:560-597 | verify depends on neither the filesystem nor any box; apply depends on no box but overwrite |
| `HashCompare.FileDigest` | main.go:148-173 | a digest is produced exactly for a stat-able, readable entry and is the digest of its content; otherwise it is a read error on that path |
| `HashCompare.FastHashCompare` | main.go:109-147 | equal path strings are equal; a stat failure names the first failing path; different sizes are unequal; for equal sizes a read failure names the first unreadable file, and otherwise the verdict is whether the two digests are equal |
| `HashCompare.SamePathNeedsNoIo` | main.go:111-113 | identical path strings compare equal whatever the filesystem and the digest |
| `HashCompare.SizeMismatchSkipsHashing` | main.go:127-130 | files of different sizes are unequal and the result does not depend on the digest |
| `HashCompare.DecidesContentEquality` | main.go:127-146 | with a collision-free digest, two readable regular files compare equal exactly when their paths are equal or their contents are equal |
| `HashCompare.VerdictSymmetric` | main.go:109-147 | swapping the paths changes neither whether a verdict is reached nor the verdict |
| `HashCompare.SameContentNotice` | main.go:174-203 | the "same content" line is logged only for two filled-in paths that are both regular files and compare equal; two readable regular files with equal content (sizes matching contents) are always announced |
| `HashCompare.NoticeMeansSameContent` | main.go:194-203 | with a collision-free digest, the notice appears for two readable regular files exactly when their contents are equal |
| `OutputDecoding.DecodeGbkStream` | main.go:372-381 | a stream is the converted text when GBK conversion succeeds and the raw bytes when it fails |
| `OutputDecoding.DecodeOutputs` | main.go:371-387 | under code page 936 each stream is its converted text when conversion succeeds and its raw bytes when it fails, and a failure note appears for a stream exactly when its conversion fails, the stdout note before the stderr note; under any other code page both streams pass through with one code-page note |
| `OutputDecoding.StreamsDecodedIndependently` | main.go:371-381 | what is shown for one stream never depends on the other stream, and both streams follow the same rule |
| `OutputDecoding.InvalidGbkShownRaw` | main.go:373-376 | a stream that is not valid GBK is shown as its raw bytes under every code page |
| `OutputDecoding.OtherCodePagesIgnoreDecoder` | main.go:382-387 | outside code page 936 the converter is never consulted |
| `Launcher.ToolCandidate` | main.go:323 | the expected tool path is `hdiffz.exe` in the program's own directory |
| `Launcher.ExecuteCommand` | main.go:315-345 | a launch always uses the given arguments and a non-empty tool path; a found candidate is launched and remembered; a missing or uninspectable candidate fails and keeps the remembered path; without the program's own path, the remembered path is used if there is one |
| `Launcher.RememberedPathPersists` | main.go:325-328 | once a tool path is remembered, no later call forgets it |
| `Launcher.FailedLookupIsRetried` | main.go:318-332 | after a failed lookup, the next call succeeds as soon as the tool is in place |
| `Launcher.UnknownLocationReusesLastTool` | main.go:318-345 | after a successful lookup, a call that cannot locate the program launches the tool found before |
| `Launcher.Submit` | main.go:554-596 | a rejected request never reaches the tool lookup and leaves the remembered path unchanged; an accepted request is handed to the tool lookup with exactly the built arguments, and launches exactly when the lookup succeeds |
| `Launcher.VerifyLaunchesTool` | main.go:560-573 | a verify request with all three paths filled in launches exactly when the tool lookup succeeds, with `-t old new patch` and the tool path found |
| `Launcher.DirectoryToFileRejected` | main.go:529-536 | creating a patch from a directory to a regular file is rejected as a kind mismatch before any lookup |

## Left out

- Window construction, labels, check-box widgets, the log method with its mutex and UI-thread hand-off, and the path-label texts (main.go:91-108, 440-482, 742-1028). The boxes are boolean inputs; the log is modelled only as notes where a decision depends on it.
- Process start, pipes, the hidden console window, waiting for the exit status, and the goroutine (main.go:340-402). These are operating-system I/O and concurrency. The model ends at the `Launch` value.
- Display of the captured output with `strings.TrimSpace` (main.go:395-401). This is only formatting for the log.
- The change of working directory in `executeCommand` (main.go:319-322). This is a process-wide side effect; the program's own path is an input.
- The MD5 algorithm and the 1 MB streaming loop of `fastMD5` (main.go:148-173). The digest is a parameter, and a failed open or read is the entry's `readable` flag.
- The internals of `GbkToUtf8` (main.go:305-313). It is a parameter returning `None` on failure, because the partial output it returns with an error is discarded by its caller.
- `GetACP` (main.go:749-751). The code page is an input.
- The file and folder dialogs and drop hit-testing (main.go:599-740). These are native shell calls and UI.
- Timing and console prints of `BenchmarkCompare` and `FastHashCompare` (main.go:174-193).
- main.go:205-302 repeats main.go:109-203 word for word. It is modelled once.
- PathNames.Base: volume names (`C:`) are not split off, and only the backslash counts as a separator.
- PathNames.Dir: the lexical clean-up of `.` and `..` elements and of repeated separators inside the path is not modelled.
- PathNames.Join: the lexical clean-up of the joined path is not modelled.
- HashCompare.DecidesContentEquality: assumes the digest is collision-free, which MD5 is only with overwhelming probability.
