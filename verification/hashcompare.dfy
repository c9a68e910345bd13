/**
  The content-equality pre-check run when both paths of the create tab
  name regular files: identical path strings, then sizes, then digests of
  the contents. The digest algorithm is a parameter of the model.
 */
module HashCompare {
  import opened Types
  import opened FileSystem

  /** A content digest; the program uses the hex form of MD5. */
  type Digest = seq<byte> -> string

  /** Which path an I/O step failed on. */
  datatype CompareError = StatError(path: string) | ReadError(path: string)

  /** `fastMD5`: the digest of a file's content, or an error if it cannot be opened and read. */
  function FileDigest(fs: FS, p: string, digest: Digest): (r: Result<string, CompareError>)
    ensures r.Ok? <==> Stat(fs, p).StatOk? && Stat(fs, p).entry.readable
    ensures r.Ok? ==> r.value == digest(fs[p].entry.content)
    ensures r.Err? ==> r.error == ReadError(p)
  {
    match Stat(fs, p)
    case StatOk(e) => if e.readable then Ok(digest(e.content)) else Err(ReadError(p))
    case _ => Err(ReadError(p))
  }

  /**
    `FastHashCompare`: equal path strings are equal without any I/O; a stat
    failure is reported for the first path that fails; different sizes are
    unequal without hashing; otherwise the digests decide.
   */
  function FastHashCompare(fs: FS, a: string, b: string, digest: Digest): (r: Result<bool, CompareError>)
    ensures a == b ==> r == Ok(true)
    ensures a != b && !Stat(fs, a).StatOk? ==> r == Err(StatError(a))
    ensures a != b && Stat(fs, a).StatOk? && !Stat(fs, b).StatOk? ==> r == Err(StatError(b))
    ensures (&& a != b && Stat(fs, a).StatOk? && Stat(fs, b).StatOk?
             && Stat(fs, a).entry.size != Stat(fs, b).entry.size) ==> r == Ok(false)
    ensures (&& a != b && Stat(fs, a).StatOk? && Stat(fs, b).StatOk?
             && Stat(fs, a).entry.size == Stat(fs, b).entry.size) ==>
              && (!fs[a].entry.readable ==> r == Err(ReadError(a)))
              && (fs[a].entry.readable && !fs[b].entry.readable ==> r == Err(ReadError(b)))
              && (fs[a].entry.readable && fs[b].entry.readable ==>
                    r == Ok(digest(fs[a].entry.content) == digest(fs[b].entry.content)))
    ensures r == Ok(true) ==>
              || a == b
              || (&& Stat(fs, a).StatOk? && Stat(fs, b).StatOk?
                  && fs[a].entry.size == fs[b].entry.size
                  && digest(fs[a].entry.content) == digest(fs[b].entry.content))
  {
    if a == b then Ok(true)
    else
      match Stat(fs, a)
      case StatOk(ea) =>
        (match Stat(fs, b)
         case StatOk(eb) =>
           if ea.size != eb.size then Ok(false)
           else
             (match FileDigest(fs, a, digest)
              case Err(e) => Err(e)
              case Ok(h1) =>
                match FileDigest(fs, b, digest)
                case Err(e) => Err(e)
                case Ok(h2) => Ok(h1 == h2))
         case _ => Err(StatError(b)))
      case _ => Err(StatError(a))
  }

  /** Identical path strings compare equal whatever the filesystem and the digest. */
  lemma SamePathNeedsNoIo(fs1: FS, fs2: FS, p: string, d1: Digest, d2: Digest)
    ensures FastHashCompare(fs1, p, p, d1) == FastHashCompare(fs2, p, p, d2) == Ok(true)
  {
  }

  /** Files of different sizes are unequal, and the digest is never consulted. */
  lemma SizeMismatchSkipsHashing(fs: FS, a: string, b: string, d1: Digest, d2: Digest)
    requires a in fs && b in fs && fs[a].Present? && fs[b].Present? && a != "" && b != ""
    requires fs[a].entry.size != fs[b].entry.size
    ensures FastHashCompare(fs, a, b, d1) == FastHashCompare(fs, a, b, d2) == Ok(false)
  {
  }

  /** The digest tells different contents apart. */
  ghost predicate Injective(digest: Digest)
  {
    forall x, y :: digest(x) == digest(y) ==> x == y
  }

  /**
    With a collision-free digest and sizes that match contents, two
    readable regular files compare equal exactly when their paths are the
    same string or their contents are equal.
   */
  lemma DecidesContentEquality(fs: FS, a: string, b: string, digest: Digest)
    requires Injective(digest) && Consistent(fs)
    requires PathType(fs, a) == File && PathType(fs, b) == File
    requires fs[a].entry.readable && fs[b].entry.readable
    ensures FastHashCompare(fs, a, b, digest) == Ok(a == b || fs[a].entry.content == fs[b].entry.content)
  {
  }

  /** Swapping the two paths changes neither whether a verdict is reached nor the verdict. */
  lemma VerdictSymmetric(fs: FS, a: string, b: string, digest: Digest)
    ensures FastHashCompare(fs, a, b, digest).Ok? <==> FastHashCompare(fs, b, a, digest).Ok?
    ensures FastHashCompare(fs, a, b, digest).Ok? ==>
              FastHashCompare(fs, a, b, digest).value == FastHashCompare(fs, b, a, digest).value
  {
  }

  /**
    `compare` with `BenchmarkCompare`: whether the "both files have the same
    content" line is logged after the old or new path field changes. Only
    two non-empty paths that are both regular files are compared, and a
    comparison error logs nothing.
   */
  function SameContentNotice(fs: FS, oldPath: string, newPath: string, digest: Digest): (logged: bool)
    ensures logged ==> oldPath != "" && newPath != ""
    ensures logged ==> PathType(fs, oldPath) == File && PathType(fs, newPath) == File
    ensures logged ==> FastHashCompare(fs, oldPath, newPath, digest) == Ok(true)
    ensures (&& Consistent(fs)
             && PathType(fs, oldPath) == File && PathType(fs, newPath) == File
             && fs[oldPath].entry.readable && fs[newPath].entry.readable
             && fs[oldPath].entry.content == fs[newPath].entry.content) ==> logged
  {
    && oldPath != "" && newPath != ""
    && PathType(fs, oldPath) == File && PathType(fs, newPath) == File
    && FastHashCompare(fs, oldPath, newPath, digest) == Ok(true)
  }

  /**
    With a collision-free digest, the notice appears exactly for two
    readable regular files with the same content.
   */
  lemma NoticeMeansSameContent(fs: FS, oldPath: string, newPath: string, digest: Digest)
    requires Injective(digest) && Consistent(fs)
    requires PathType(fs, oldPath) == File && PathType(fs, newPath) == File
    requires fs[oldPath].entry.readable && fs[newPath].entry.readable
    ensures SameContentNotice(fs, oldPath, newPath, digest) <==> fs[oldPath].entry.content == fs[newPath].entry.content
  {
    DecidesContentEquality(fs, oldPath, newPath, digest);
  }
}
