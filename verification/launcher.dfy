/**
  Locating the external tool and handing it a validated argument vector:
  the tool is looked up as `hdiffz.exe` next to the running program on
  every call, and the last path found is remembered for calls where the
  program's own location cannot be determined.
 */
module Launcher {
  import opened Types
  import opened FileSystem
  import opened PathNames
  import opened Commands

  const ToolName: string := "hdiffz.exe"

  datatype LaunchError =
    | ToolNotFound(path: string)    // the candidate does not exist
    | ToolStatFailed(path: string)  // the candidate could not be inspected
    | NoToolPath                    // no location known at all

  /** A process start: the executable and its argument vector. */
  datatype Launch = Launch(tool: string, args: seq<string>)

  /** The outcome of one call, and the remembered tool path afterwards. */
  datatype Dispatch = Dispatch(outcome: Result<Launch, LaunchError>, toolPath: string)

  /** Where the tool is expected for a program image at `exe`. */
  function ToolCandidate(exe: string): (p: string)
    ensures p != ""
    ensures Base(p) == ToolName
    ensures Dir(p) == Dir(exe)
  {
    var name := ToolName;
    assert SepFree(name);
    DirJoinRoundTrip(exe, name);
    Join(Dir(exe), name)
  }

  /**
    The tool-location part of `executeCommand`: `exe` is the program's own
    path when the operating system reports it, `cached` the tool path
    remembered from earlier calls ("" if none).
   */
  function ExecuteCommand(cached: string, exe: Option<string>, fs: FS, args: seq<string>): (d: Dispatch)
    ensures d.outcome.Ok? ==> d.outcome.value == Launch(d.toolPath, args) && d.toolPath != ""
    ensures exe.Some? && Stat(fs, ToolCandidate(exe.value)).StatOk? ==>
              d == Dispatch(Ok(Launch(ToolCandidate(exe.value), args)), ToolCandidate(exe.value))
    ensures exe.Some? && Stat(fs, ToolCandidate(exe.value)).NotExist? ==>
              d == Dispatch(Err(ToolNotFound(ToolCandidate(exe.value))), cached)
    ensures exe.Some? && Stat(fs, ToolCandidate(exe.value)).StatFailed? ==>
              d == Dispatch(Err(ToolStatFailed(ToolCandidate(exe.value))), cached)
    ensures exe.None? ==> d.toolPath == cached && (d.outcome.Ok? <==> cached != "")
  {
    match exe
    case None =>
      if cached == "" then Dispatch(Err(NoToolPath), cached)
      else Dispatch(Ok(Launch(cached, args)), cached)
    case Some(e) =>
      var candidate := ToolCandidate(e);
      match Stat(fs, candidate)
      case StatOk(_) => Dispatch(Ok(Launch(candidate, args)), candidate)
      case NotExist => Dispatch(Err(ToolNotFound(candidate)), cached)
      case StatFailed => Dispatch(Err(ToolStatFailed(candidate)), cached)
  }

  /** Once a tool path has been remembered, no later call forgets it. */
  lemma RememberedPathPersists(cached: string, exe: Option<string>, fs: FS, args: seq<string>)
    requires cached != ""
    ensures ExecuteCommand(cached, exe, fs, args).toolPath != ""
  {
  }

  /**
    A failed lookup is not final: the next call probes again, and succeeds
    as soon as the tool is in place.
   */
  lemma FailedLookupIsRetried(cached: string, exe: string, fs1: FS, fs2: FS, a1: seq<string>, a2: seq<string>)
    requires ExecuteCommand(cached, Some(exe), fs1, a1).outcome.Err?
    requires Stat(fs2, ToolCandidate(exe)).StatOk?
    ensures var first := ExecuteCommand(cached, Some(exe), fs1, a1);
            ExecuteCommand(first.toolPath, Some(exe), fs2, a2).outcome == Ok(Launch(ToolCandidate(exe), a2))
  {
  }

  /**
    After one successful lookup, a call that cannot determine the program's
    location still launches the tool found before, without checking it again.
   */
  lemma UnknownLocationReusesLastTool(cached: string, exe: string, fs1: FS, fs2: FS, a1: seq<string>, a2: seq<string>)
    ensures var first := ExecuteCommand(cached, Some(exe), fs1, a1);
            first.outcome.Ok? ==>
              ExecuteCommand(first.toolPath, None, fs2, a2).outcome == Ok(Launch(ToolCandidate(exe), a2))
  {
  }

  // ---------------------------------------------------------------------
  // A button press from validation to launch

  datatype SubmitError = Rejected(reason: BuildError) | NotLaunched(cause: LaunchError)

  datatype Submission = Submission(outcome: Result<Launch, SubmitError>, toolPath: string)

  /**
    `createPatch`, `verifyPatch` or `applyPatch` followed by `executeCommand`:
    a rejected request never reaches the tool lookup, and an accepted one
    launches the tool with exactly the built arguments.
   */
  function Submit(op: Operation, p: Paths, o: Options, fs: FS, cached: string, exe: Option<string>): (s: Submission)
    ensures Build(op, p, o, fs).Err? ==>
              s == Submission(Err(Rejected(Build(op, p, o, fs).error)), cached)
    ensures s.outcome.Ok? ==> Build(op, p, o, fs).Ok? && s.outcome.value.args == Build(op, p, o, fs).value
    ensures Build(op, p, o, fs).Ok? && s.outcome.Err? ==> s.outcome.error.NotLaunched?
    ensures Build(op, p, o, fs).Ok? ==>
              var d := ExecuteCommand(cached, exe, fs, Build(op, p, o, fs).value);
              && s.toolPath == d.toolPath
              && (s.outcome.Ok? <==> d.outcome.Ok?)
              && (s.outcome.Ok? ==> s.outcome.value == d.outcome.value)
  {
    match Build(op, p, o, fs)
    case Err(e) => Submission(Err(Rejected(e)), cached)
    case Ok(args) =>
      var d := ExecuteCommand(cached, exe, fs, args);
      match d.outcome
      case Ok(launch) => Submission(Ok(launch), d.toolPath)
      case Err(e) => Submission(Err(NotLaunched(e)), d.toolPath)
  }

  /**
    A verify request with all three paths filled in goes straight to the
    tool lookup with `-t old new patch`: it launches exactly when the lookup
    succeeds, and then with exactly those arguments.
   */
  lemma VerifyLaunchesTool(p: Paths, o: Options, fs: FS, cached: string, exe: Option<string>)
    requires p.oldPath != "" && p.newPath != "" && p.patchPath != ""
    ensures var s := Submit(VerifyPatch, p, o, fs, cached, exe);
            var d := ExecuteCommand(cached, exe, fs, [VerifyFlag, p.oldPath, p.newPath, p.patchPath]);
            && s.toolPath == d.toolPath
            && (s.outcome.Ok? <==> d.outcome.Ok?)
            && (s.outcome.Ok? ==> s.outcome.value == Launch(d.toolPath, [VerifyFlag, p.oldPath, p.newPath, p.patchPath]))
  {
  }

  /**
    Creating a patch from a directory to a regular file is rejected as a
    kind mismatch before the tool is looked up.
   */
  lemma DirectoryToFileRejected(p: Paths, o: Options, fs: FS, cached: string, exe: Option<string>)
    requires p.oldPath != "" && p.newPath != "" && p.patchPath != ""
    requires PathType(fs, p.oldPath) == Directory && PathType(fs, p.newPath) == File
    ensures Submit(CreatePatch, p, o, fs, cached, exe) ==
              Submission(Err(Rejected(KindMismatch(Directory, File))), cached)
  {
  }
}
