/**
  The abstract filesystem the core inspects, and the path classification
  (`getPathType`) the GUI uses for its labels and for the kind check of
  patch creation.
 */
module FileSystem {
  import opened Types

  /** What a successful stat reports about an entry, plus its content. */
  datatype Entry = Entry(isDir: bool, size: nat, content: seq<byte>, readable: bool)

  /**
    A path the filesystem knows about: either it can be inspected, or the
    operating system refuses to stat it (an access error that is not
    "does not exist").
   */
  datatype Node = Present(entry: Entry) | Inaccessible

  /** Paths absent from the map do not exist. */
  type FS = map<string, Node>

  /** The three outcomes of `os.Stat` that the core distinguishes. */
  datatype StatResult = StatOk(entry: Entry) | NotExist | StatFailed

  /** `os.Stat`: the empty path never names an entry. */
  function Stat(fs: FS, p: string): (r: StatResult)
    ensures r.NotExist? <==> p == "" || p !in fs
    ensures r.StatOk? <==> p != "" && p in fs && fs[p].Present?
    ensures r.StatOk? ==> r.entry == fs[p].entry
  {
    if p == "" || p !in fs then NotExist
    else match fs[p]
      case Present(e) => StatOk(e)
      case Inaccessible => StatFailed
  }

  /** `FileType`: what the GUI can tell about a path. */
  datatype FileKind = Unknown | File | Directory

  /** `getPathType`: any stat failure, including an empty path, gives `Unknown`. */
  function PathType(fs: FS, p: string): (k: FileKind)
    ensures k == Unknown <==> p == "" || !Stat(fs, p).StatOk?
    ensures k == Directory <==> Stat(fs, p).StatOk? && Stat(fs, p).entry.isDir
    ensures k == File <==> Stat(fs, p).StatOk? && !Stat(fs, p).entry.isDir
  {
    if p == "" then Unknown
    else match Stat(fs, p)
      case StatOk(e) => if e.isDir then Directory else File
      case _ => Unknown
  }

  /** A regular file's reported size is the length of its content. */
  ghost predicate Consistent(fs: FS)
  {
    forall p :: p in fs && fs[p].Present? && !fs[p].entry.isDir ==> fs[p].entry.size == |fs[p].entry.content|
  }
}
