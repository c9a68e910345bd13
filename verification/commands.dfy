/**
  Request validation and argument-vector construction for the three
  operations the GUI offers: creating a patch, verifying a patch, and
  applying a patch. Each either rejects the request with the first
  violated rule or produces the exact argument list handed to the tool.
 */
module Commands {
  import opened Types
  import opened FileSystem

  const CompressFlag: string := "-c-zstd-21-24"
  const OverwriteFlag: string := "-f"
  const SkipVerifyFlag: string := "-d"
  const VerifyFlag: string := "-t"
  const ApplyFlag: string := "--patch"

  /** The check boxes of a tab. */
  datatype Options = Options(compress: bool, overwrite: bool, skipVerify: bool)

  /** The three path fields of a tab. */
  datatype Paths = Paths(oldPath: string, newPath: string, patchPath: string)

  datatype Operation = CreatePatch | VerifyPatch | ApplyPatch

  /** One variant per early return of the three request handlers. */
  datatype BuildError =
    | MissingOldPath          // create: no old path
    | MissingNewPath          // create: no new path
    | MissingPatchPath        // create: no patch output path
    | OldPathNotFound(path: string)
    | NewPathNotFound(path: string)
    | KindMismatch(oldKind: FileKind, newKind: FileKind)
    | MissingRequiredPaths    // verify: any of the three paths missing
    | MissingOldOrPatchPath   // apply: old or patch path missing
    | MissingOutputPath       // apply: no output path

  /** Both kinds are known and they differ. */
  predicate KindsConflict(oldKind: FileKind, newKind: FileKind)
  {
    oldKind != Unknown && newKind != Unknown && oldKind != newKind
  }

  // ---------------------------------------------------------------------
  // Argument layouts

  /** The optional flags of patch creation, in the fixed order compress, overwrite, skip-verify. */
  function CreateFlags(o: Options): seq<string>
  {
    (if o.compress then [CompressFlag] else [])
    + (if o.overwrite then [OverwriteFlag] else [])
    + (if o.skipVerify then [SkipVerifyFlag] else [])
  }

  function FlagCount(o: Options): nat
  {
    (if o.compress then 1 else 0) + (if o.overwrite then 1 else 0) + (if o.skipVerify then 1 else 0)
  }

  function CreateArgs(o: Options, p: Paths): seq<string>
  {
    CreateFlags(o) + [p.oldPath, p.newPath, p.patchPath]
  }

  function VerifyArgs(p: Paths): seq<string>
  {
    [VerifyFlag, p.oldPath, p.newPath, p.patchPath]
  }

  /** Apply puts the patch file before the output path. */
  function ApplyArgs(overwrite: bool, p: Paths): seq<string>
  {
    [ApplyFlag] + (if overwrite then [OverwriteFlag] else []) + [p.oldPath, p.patchPath, p.newPath]
  }

  // ---------------------------------------------------------------------
  // Request handlers

  /**
    `createPatch`: all three paths must be filled in (old, then new, then
    patch), the old and the new path must not be reported missing (old
    first), and two known kinds must agree.
   */
  function BuildCreate(p: Paths, o: Options, fs: FS): (r: Result<seq<string>, BuildError>)
    ensures p.oldPath == "" ==> r == Err(MissingOldPath)
    ensures p.oldPath != "" && p.newPath == "" ==> r == Err(MissingNewPath)
    ensures p.oldPath != "" && p.newPath != "" && p.patchPath == "" ==> r == Err(MissingPatchPath)
    ensures r.Ok? <==>
              && p.oldPath != "" && p.newPath != "" && p.patchPath != ""
              && !Stat(fs, p.oldPath).NotExist? && !Stat(fs, p.newPath).NotExist?
              && !KindsConflict(PathType(fs, p.oldPath), PathType(fs, p.newPath))
    ensures r.Ok? ==> r.value == CreateArgs(o, p)
    ensures r.Err? && r.error.KindMismatch? ==>
              r.error.oldKind != Unknown && r.error.newKind != Unknown && r.error.oldKind != r.error.newKind
  {
    if p.oldPath == "" then Err(MissingOldPath)
    else if p.newPath == "" then Err(MissingNewPath)
    else if p.patchPath == "" then Err(MissingPatchPath)
    else if Stat(fs, p.oldPath).NotExist? then Err(OldPathNotFound(p.oldPath))
    else if Stat(fs, p.newPath).NotExist? then Err(NewPathNotFound(p.newPath))
    else
      var oldKind := PathType(fs, p.oldPath);
      var newKind := PathType(fs, p.newPath);
      if KindsConflict(oldKind, newKind) then Err(KindMismatch(oldKind, newKind))
      else Ok(CreateArgs(o, p))
  }

  /** `verifyPatch`: all three paths must be filled in; nothing else is checked. */
  function BuildVerify(p: Paths): (r: Result<seq<string>, BuildError>)
    ensures r.Ok? <==> p.oldPath != "" && p.newPath != "" && p.patchPath != ""
    ensures r.Err? ==> r.error == MissingRequiredPaths
    ensures r.Ok? ==> r.value == VerifyArgs(p)
  {
    if p.oldPath == "" || p.newPath == "" || p.patchPath == "" then Err(MissingRequiredPaths)
    else Ok(VerifyArgs(p))
  }

  /** `applyPatch`: old and patch path first, then the output path; only the overwrite box matters. */
  function BuildApply(p: Paths, overwrite: bool): (r: Result<seq<string>, BuildError>)
    ensures p.oldPath == "" || p.patchPath == "" ==> r == Err(MissingOldOrPatchPath)
    ensures p.oldPath != "" && p.patchPath != "" && p.newPath == "" ==> r == Err(MissingOutputPath)
    ensures r.Ok? <==> p.oldPath != "" && p.patchPath != "" && p.newPath != ""
    ensures r.Ok? ==> r.value == ApplyArgs(overwrite, p)
  {
    if p.oldPath == "" || p.patchPath == "" then Err(MissingOldOrPatchPath)
    else if p.newPath == "" then Err(MissingOutputPath)
    else Ok(ApplyArgs(overwrite, p))
  }

  // ---------------------------------------------------------------------
  // Rejection order, stated declaratively

  /** A validation rule and the error it reports when violated. */
  datatype Rule = Rule(holds: bool, failure: BuildError)

  /**
    `r` rejects exactly when some rule is violated, and then with the error
    of the first violated rule.
   */
  predicate ReportsFirstViolation(rules: seq<Rule>, r: Result<seq<string>, BuildError>)
  {
    && (r.Err? <==> exists i :: 0 <= i < |rules| && !rules[i].holds)
    && (r.Err? ==> exists i :: 0 <= i < |rules| && !rules[i].holds && rules[i].failure == r.error
                               && forall j :: 0 <= j < i ==> rules[j].holds)
  }

  function CreateRules(p: Paths, fs: FS): seq<Rule>
  {
    var oldKind := PathType(fs, p.oldPath);
    var newKind := PathType(fs, p.newPath);
    [ Rule(p.oldPath != "", MissingOldPath),
      Rule(p.newPath != "", MissingNewPath),
      Rule(p.patchPath != "", MissingPatchPath),
      Rule(!Stat(fs, p.oldPath).NotExist?, OldPathNotFound(p.oldPath)),
      Rule(!Stat(fs, p.newPath).NotExist?, NewPathNotFound(p.newPath)),
      Rule(!KindsConflict(oldKind, newKind), KindMismatch(oldKind, newKind)) ]
  }

  function ApplyRules(p: Paths): seq<Rule>
  {
    [ Rule(p.oldPath != "" && p.patchPath != "", MissingOldOrPatchPath),
      Rule(p.newPath != "", MissingOutputPath) ]
  }

  function VerifyRules(p: Paths): seq<Rule>
  {
    [ Rule(p.oldPath != "" && p.newPath != "" && p.patchPath != "", MissingRequiredPaths) ]
  }

  /** The rules of an operation, in the order its handler checks them. */
  function Rules(op: Operation, p: Paths, fs: FS): seq<Rule>
  {
    match op
    case CreatePatch => CreateRules(p, fs)
    case VerifyPatch => VerifyRules(p)
    case ApplyPatch => ApplyRules(p)
  }

  /** The argument layout of an operation; apply takes only the overwrite box. */
  function Args(op: Operation, o: Options, p: Paths): seq<string>
  {
    match op
    case CreatePatch => CreateArgs(o, p)
    case VerifyPatch => VerifyArgs(p)
    case ApplyPatch => ApplyArgs(o.overwrite, p)
  }

  /** Every handler reports the first rule, in source order, that the request violates. */
  lemma {:induction false} RejectsFirstViolation(op: Operation, p: Paths, o: Options, fs: FS)
    ensures op.CreatePatch? ==> ReportsFirstViolation(CreateRules(p, fs), BuildCreate(p, o, fs))
    ensures op.VerifyPatch? ==> ReportsFirstViolation(VerifyRules(p), BuildVerify(p))
    ensures op.ApplyPatch? ==> ReportsFirstViolation(ApplyRules(p), BuildApply(p, o.overwrite))
  {
    match op
    case CreatePatch =>
      var r := BuildCreate(p, o, fs);
      var rules := CreateRules(p, fs);
      if r.Err? {
        var i := if !rules[0].holds then 0 else if !rules[1].holds then 1 else if !rules[2].holds then 2
                 else if !rules[3].holds then 3 else if !rules[4].holds then 4 else 5;
        assert !rules[i].holds && rules[i].failure == r.error;
        assert forall j :: 0 <= j < i ==> rules[j].holds;
      } else {
        assert forall i :: 0 <= i < |rules| ==> rules[i].holds;
      }
    case VerifyPatch =>
      var r := BuildVerify(p);
      var rules := VerifyRules(p);
      if r.Err? {
        assert !rules[0].holds;
      }
    case ApplyPatch =>
      var r := BuildApply(p, o.overwrite);
      var rules := ApplyRules(p);
      if r.Err? {
        var i := if !rules[0].holds then 0 else 1;
        assert !rules[i].holds && rules[i].failure == r.error;
      } else {
        assert forall i :: 0 <= i < |rules| ==> rules[i].holds;
      }
  }

  /**
    The handler behind each button: it rejects a request exactly when one
    of the operation's rules is violated, reporting the first such rule in
    source order, and otherwise yields the operation's argument layout.
   */
  function Build(op: Operation, p: Paths, o: Options, fs: FS): (r: Result<seq<string>, BuildError>)
    ensures ReportsFirstViolation(Rules(op, p, fs), r)
    ensures r.Ok? ==> r.value == Args(op, o, p)
  {
    RejectsFirstViolation(op, p, o, fs);
    match op
    case CreatePatch => BuildCreate(p, o, fs)
    case VerifyPatch => BuildVerify(p)
    case ApplyPatch => BuildApply(p, o.overwrite)
  }

  // ---------------------------------------------------------------------
  // Positional decoding: what a positional command-line parser recovers

  /** The flags encoded by an argument prefix, if it is one the create handler can emit. */
  function DecodeCreateFlags(flags: seq<string>): (r: Option<Options>)
  {
    var o := Options(CompressFlag in flags, OverwriteFlag in flags, SkipVerifyFlag in flags);
    if CreateFlags(o) == flags then Some(o) else None
  }

  /** Reads a create argument vector: leading flags, then old, new and patch path. */
  function DecodeCreateArgs(args: seq<string>): (r: Option<(Options, Paths)>)
  {
    if |args| < 3 then None
    else
      var n := |args| - 3;
      match DecodeCreateFlags(args[..n])
      case None => None
      case Some(o) => Some((o, Paths(args[n], args[n + 1], args[n + 2])))
  }

  /** Reads an apply argument vector: the apply flag, an optional overwrite flag, then old, patch and output path. */
  function DecodeApplyArgs(args: seq<string>): (r: Option<(bool, Paths)>)
  {
    if |args| == 4 && args[0] == ApplyFlag then Some((false, Paths(args[1], args[3], args[2])))
    else if |args| == 5 && args[0] == ApplyFlag && args[1] == OverwriteFlag then
      Some((true, Paths(args[2], args[4], args[3])))
    else None
  }

  function DecodeVerifyArgs(args: seq<string>): (r: Option<Paths>)
  {
    if |args| == 4 && args[0] == VerifyFlag then Some(Paths(args[1], args[2], args[3])) else None
  }

  lemma CreateFlagsDistinct(o: Options)
    ensures |CreateFlags(o)| == FlagCount(o)
    ensures CompressFlag in CreateFlags(o) <==> o.compress
    ensures OverwriteFlag in CreateFlags(o) <==> o.overwrite
    ensures SkipVerifyFlag in CreateFlags(o) <==> o.skipVerify
    ensures forall i :: 0 <= i < |CreateFlags(o)| ==> CreateFlags(o)[i] in {CompressFlag, OverwriteFlag, SkipVerifyFlag}
  {
    var c: seq<string> := if o.compress then [CompressFlag] else [];
    var w: seq<string> := if o.overwrite then [OverwriteFlag] else [];
    var d: seq<string> := if o.skipVerify then [SkipVerifyFlag] else [];
    assert CreateFlags(o) == c + w + d;
    assert CompressFlag != OverwriteFlag && CompressFlag != SkipVerifyFlag && OverwriteFlag != SkipVerifyFlag by {
      assert CompressFlag[1] != OverwriteFlag[1];
      assert CompressFlag[1] != SkipVerifyFlag[1];
      assert OverwriteFlag[1] != SkipVerifyFlag[1];
    }
  }

  /**
    A positional parser recovers every option and every path from a
    successful create request: flags come first, each present exactly when
    its box is checked, and the last three arguments are old, new and patch.
   */
  lemma CreateArgsRoundTrip(p: Paths, o: Options, fs: FS)
    requires BuildCreate(p, o, fs).Ok?
    ensures var args := BuildCreate(p, o, fs).value;
            && |args| == 3 + FlagCount(o)
            && args[|args| - 3..] == [p.oldPath, p.newPath, p.patchPath]
            && (forall i :: 0 <= i < |args| - 3 ==> args[i] in {CompressFlag, OverwriteFlag, SkipVerifyFlag})
            && (CompressFlag in args[..|args| - 3] <==> o.compress)
            && (OverwriteFlag in args[..|args| - 3] <==> o.overwrite)
            && (SkipVerifyFlag in args[..|args| - 3] <==> o.skipVerify)
            && DecodeCreateArgs(args) == Some((o, p))
  {
    var args := BuildCreate(p, o, fs).value;
    CreateFlagsDistinct(o);
    var n := |args| - 3;
    assert args[..n] == CreateFlags(o);
    assert DecodeCreateFlags(args[..n]) == Some(o);
  }

  /** Conversely, every vector the parser accepts is the one the create handler builds for it. */
  lemma DecodeCreateArgsSound(args: seq<string>)
    requires DecodeCreateArgs(args).Some?
    ensures var (o, p) := DecodeCreateArgs(args).value; args == CreateArgs(o, p)
  {
    var n := |args| - 3;
    assert args == args[..n] + [args[n], args[n + 1], args[n + 2]];
  }

  /**
    A successful apply request puts the apply flag first, the overwrite
    flag exactly when requested, and the patch path before the output
    path; the parser recovers the request.
   */
  lemma ApplyArgsRoundTrip(p: Paths, overwrite: bool)
    requires BuildApply(p, overwrite).Ok?
    ensures var args := BuildApply(p, overwrite).value;
            && args[0] == ApplyFlag
            && |args| == (if overwrite then 5 else 4)
            && (OverwriteFlag in args[..|args| - 3] <==> overwrite)
            && args[|args| - 3..] == [p.oldPath, p.patchPath, p.newPath]
            && DecodeApplyArgs(args) == Some((overwrite, p))
  {
    var args := BuildApply(p, overwrite).value;
    assert ApplyFlag != OverwriteFlag by {
      assert |ApplyFlag| != |OverwriteFlag|;
    }
    if overwrite {
      assert args[..2] == [ApplyFlag, OverwriteFlag];
    } else {
      assert args[..1] == [ApplyFlag];
    }
  }

  lemma DecodeApplyArgsSound(args: seq<string>)
    requires DecodeApplyArgs(args).Some?
    ensures var (w, p) := DecodeApplyArgs(args).value; args == ApplyArgs(w, p)
  {
  }

  /** Conversely, every vector the verify parser accepts is the one the verify handler builds for it. */
  lemma DecodeVerifyArgsSound(args: seq<string>)
    requires DecodeVerifyArgs(args).Some?
    ensures args == VerifyArgs(DecodeVerifyArgs(args).value)
  {
  }

  /** A successful verify request is exactly the verify flag followed by old, new and patch. */
  lemma VerifyArgsRoundTrip(p: Paths)
    requires BuildVerify(p).Ok?
    ensures BuildVerify(p).value == [VerifyFlag, p.oldPath, p.newPath, p.patchPath]
    ensures DecodeVerifyArgs(BuildVerify(p).value) == Some(p)
  {
  }

  /**
    For the same three paths, create ends with new before patch while apply
    ends with patch before new.
   */
  lemma CreateAndApplyOrderDiffer(p: Paths, o: Options, fs: FS)
    requires BuildCreate(p, o, fs).Ok? && BuildApply(p, o.overwrite).Ok?
    ensures var c := BuildCreate(p, o, fs).value;
            var a := BuildApply(p, o.overwrite).value;
            && c[|c| - 2] == p.newPath && c[|c| - 1] == p.patchPath
            && a[|a| - 2] == p.patchPath && a[|a| - 1] == p.newPath
  {
  }

  /**
    Verify and apply consult neither the filesystem nor the boxes they do
    not show: verify ignores every box, apply all but overwrite.
   */
  lemma VerifyAndApplyIgnoreFilesystem(p: Paths, o1: Options, o2: Options, fs1: FS, fs2: FS)
    ensures Build(VerifyPatch, p, o1, fs1) == Build(VerifyPatch, p, o2, fs2)
    ensures o1.overwrite == o2.overwrite ==> Build(ApplyPatch, p, o1, fs1) == Build(ApplyPatch, p, o2, fs2)
  {
  }
}
