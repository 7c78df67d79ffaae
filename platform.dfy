/** What the core asks of the platform, abstracted: the file tree (a map from
    resolved absolute paths to nodes), the paths the process may not touch,
    the content sniff of `file_format`, the order in which `read_dir`
    enumerates a directory, and what the `glob` crate yields.  The last two
    are given as functions (`Os`); `Enumerates` says when an enumeration is
    faithful to the tree. */
module Platform {
  import opened Common
  import opened Paths

  /** `file_format::Kind`: the broad kind of a sniffed format. */
  datatype Kind =
    | Application | Archive | Audio | Book | Certificate | Compression | Disk
    | Document | Executable | Font | Geospatial | Image | Model | Package
    | Playlist | Rom | Subtitle | Syndication | Text | Video

  /** What `FileFormat::from_file` reports for a file it could read. */
  datatype FileFormat = FileFormat(mediaType: string, kind: Kind)

  /** A node of the tree.  A file carries the outcome of sniffing its bytes:
      `None` when `FileFormat::from_file` fails on it. */
  datatype Node = Dir | File(format: Option<FileFormat>)

  /** The tree, keyed by resolved absolute paths, and the resolved paths the
      process is refused access to (it cannot open, read, or change entries
      directly inside them). */
  datatype FileSystem = FileSystem(nodes: map<Path, Node>, denied: set<Path>)
  {
    predicate IsDirAt(p: Path)
    {
      Resolve(p) in nodes && nodes[Resolve(p)].Dir?
    }

    predicate IsFileAt(p: Path)
    {
      Resolve(p) in nodes && nodes[Resolve(p)].File?
    }

    /** `FileFormat::from_file(p)`: fails unless `p` is a readable file. */
    function SniffAt(p: Path): Option<FileFormat>
    {
      if IsFileAt(p) && Resolve(p) !in denied then nodes[Resolve(p)].format else None
    }

    /** `name` is an entry of directory `dir`. */
    predicate HasChild(dir: Path, name: string)
    {
      ValidName(name) && Resolve(dir) + [Normal(name)] in nodes
    }
  }

  /** Every node sits at a canonical path, the root is a directory and every
      other node's parent is a directory: the shape of a real tree. */
  ghost predicate Tree(nodes: map<Path, Node>)
  {
    && [RootDir] in nodes && nodes[[RootDir]].Dir?
    && forall q :: q in nodes ==>
         Canonical(q) && (|q| > 1 ==> q[..|q| - 1] in nodes && nodes[q[..|q| - 1]].Dir?)
  }

  /** One item of a `read_dir` iteration: an `Err` item (modelled with the
      name of the entry it failed on) or an entry whose `file_type()` gave
      `Some(is_dir)` or failed (`None`). */
  datatype RawEntry = Unreadable(name: string) | Readable(name: string, fileType: Option<bool>)

  /** What `glob(pattern)` gives: a pattern error, or the yielded items in
      order, each a path or a `GlobError` (`None`). */
  datatype GlobOutcome = PatternError(pos: nat, msg: string) | Matches(paths: seq<Option<Path>>)

  /** The platform's choices the core cannot see: the order `read_dir`
      enumerates a directory in (and which items fail), and the glob walk. */
  datatype Os = Os(order: (FileSystem, Path) -> seq<RawEntry>, glob: (FileSystem, string) -> GlobOutcome)

  /** `dir.read_dir()`: fails unless `dir` is a directory the process may
      read; the failure carries the context `list_files` attaches. */
  function ReadDir(fs: FileSystem, os: Os, dir: Path): (r: Result<seq<RawEntry>>)
    ensures r.Ok? <==> fs.IsDirAt(dir) && Resolve(dir) !in fs.denied
    ensures r.Ok? ==> r.value == os.order(fs, dir)
    ensures r.Err? ==> r.error == Io("Reading " + DebugQuote(Render(dir)))
  {
    if fs.IsDirAt(dir) && Resolve(dir) !in fs.denied then Ok(os.order(fs, dir))
    else Err(Io("Reading " + DebugQuote(Render(dir))))
  }

  /** `en` enumerates directory `dir` of `fs`: every entry of the directory
      exactly once, in some order, with a truthful `file_type()` where it
      succeeded. */
  ghost predicate Enumerates(fs: FileSystem, dir: Path, en: seq<RawEntry>)
  {
    && (forall i :: 0 <= i < |en| ==> fs.HasChild(dir, en[i].name))
    && (forall i :: 0 <= i < |en| && en[i].Readable? && en[i].fileType.Some? ==>
          en[i].fileType.value == fs.IsDirAt(dir + [Normal(en[i].name)]))
    && (forall i, j :: 0 <= i < j < |en| ==> en[i].name != en[j].name)
    && (forall n :: fs.HasChild(dir, n) ==> exists i :: 0 <= i < |en| && en[i].name == n)
  }

  /** No item of the enumeration failed. */
  predicate AllReadable(en: seq<RawEntry>)
  {
    forall i :: 0 <= i < |en| ==> en[i].Readable?
  }
}
