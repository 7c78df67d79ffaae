/** `src/drive_access.rs`: the drive operations over the platform.  The
    read-only ones (`list_files`, `relative_path`, `query_files` and the
    file-type table) are functions over a `FileSystem` value; the ones that
    change the tree (`save_files`, `delete_file`, `create_dir`) are methods
    of the class `Drive`, which holds the tree. */
module DriveAccess {
  import opened Common
  import opened Paths
  import opened Platform

  // ---------------------------------------------------------------------
  // File types

  /** `FileType { mime, f_type }`. */
  datatype FileType = FileType(mime: string, fType: string)

  /** `FileType::default()`. */
  function DefaultFileType(): (t: FileType)
    ensures t.mime == "application/octet-stream" && t.fType == "unknown"
  {
    FileType("application/octet-stream", "unknown")
  }

  /** The eight categories the kind table produces. */
  const Categories: set<string> := {"app", "archive", "audio", "document", "font", "image", "txt", "video"}

  /** The `match info.kind()` table of `TryFrom<&Path> for FileType`. */
  function Category(k: Kind): (c: string)
    ensures c in Categories
  {
    match k
    case Application | Executable => "app"
    case Archive | Compression | Disk | Package | Rom => "archive"
    case Audio => "audio"
    case Certificate | Document | Geospatial | Model => "document"
    case Font => "font"
    case Image => "image"
    case Book | Subtitle | Syndication | Text => "txt"
    case Playlist | Video => "video"
  }

  /** The table reaches every category: none of the eight is dead. */
  lemma CategoryOnto(c: string)
    requires c in Categories
    ensures exists k :: Category(k) == c
  {
    if c == "app" { assert Category(Application) == c; }
    else if c == "archive" { assert Category(Archive) == c; }
    else if c == "audio" { assert Category(Audio) == c; }
    else if c == "document" { assert Category(Document) == c; }
    else if c == "font" { assert Category(Font) == c; }
    else if c == "image" { assert Category(Image) == c; }
    else if c == "txt" { assert Category(Text) == c; }
    else { assert Category(Video) == c; }
  }

  /** `path.try_into().unwrap_or_default()`: the sniffed media type and the
      category of its kind, or the default when sniffing failed. */
  function Classify(sniffed: Option<FileFormat>): (t: FileType)
    ensures sniffed.None? ==> t == DefaultFileType()
    ensures sniffed.Some? ==> t.mime == sniffed.value.mediaType && t.fType in Categories
    ensures t.fType == "unknown" <==> sniffed.None?
  {
    match sniffed
    case None => DefaultFileType()
    case Some(info) => FileType(info.mediaType, Category(info.kind))
  }

  // ---------------------------------------------------------------------
  // Listing

  /** `FileInfo { name, is_dir, file_type }`. */
  datatype FileInfo = FileInfo(name: string, isDir: bool, fileType: Option<FileType>)

  /** `FilesResult { files, path, parent }`. */
  datatype FilesResult = FilesResult(files: seq<FileInfo>, path: string, parent: Option<string>)

  /** `name.starts_with(".")`. */
  predicate IsHidden(name: string)
  {
    |name| > 0 && name[0] == '.'
  }

  /** Directories carry no file type; everything else carries one. */
  predicate TypedByKind(f: FileInfo)
  {
    f.isDir <==> f.fileType.None?
  }

  predicate NoneHidden(files: seq<FileInfo>)
  {
    forall i :: 0 <= i < |files| ==> !IsHidden(files[i].name)
  }

  predicate AllTypedByKind(files: seq<FileInfo>)
  {
    forall i :: 0 <= i < |files| ==> TypedByKind(files[i])
  }

  /** `DirEntry::path()`: the directory that was read, joined with the name. */
  function EntryPath(dir: Path, name: string): Path
  {
    Join(dir, [Normal(name)])
  }

  /** The `FileInfo` built for a readable entry: a failed `file_type()`
      counts as "not a directory", and a non-directory is classified. */
  function EntryInfo(fs: FileSystem, dir: Path, e: RawEntry): (f: FileInfo)
    requires e.Readable?
    ensures f.name == e.name && TypedByKind(f)
    ensures f.isDir <==> e.fileType == Some(true)
  {
    var isDir := e.fileType.Some? && e.fileType.value;
    FileInfo(e.name, isDir, if isDir then None else Some(Classify(fs.SniffAt(EntryPath(dir, e.name)))))
  }

  /** The `filter_map(|f| f.ok().map(...))` stage: failed items vanish. */
  function EntryInfos(fs: FileSystem, dir: Path, en: seq<RawEntry>): (r: seq<FileInfo>)
    ensures AllTypedByKind(r)
    decreases |en|
  {
    if en == [] then []
    else
      var last := en[|en| - 1];
      EntryInfos(fs, dir, en[..|en| - 1]) + (if last.Readable? then [EntryInfo(fs, dir, last)] else [])
  }

  /** The `filter(|f| !f.name.starts_with("."))` stage. */
  function Visible(files: seq<FileInfo>): (r: seq<FileInfo>)
    ensures NoneHidden(r)
    ensures AllTypedByKind(files) ==> AllTypedByKind(r)
    decreases |files|
  {
    if files == [] then []
    else
      var last := files[|files| - 1];
      Visible(files[..|files| - 1]) + (if IsHidden(last.name) then [] else [last])
  }

  /** `relative_path`: strip `base` off `p` and show the rest as `""` or
      `"/" + rest`. */
  function RelativePath(p: Path, base: Path): (r: Result<string>)
    ensures r.Ok? <==> StartsWith(p, base)
    ensures r.Err? ==> r.error == StripPrefix
    ensures r.Ok? && r.value != "" ==> r.value[0] == '/'
  {
    if !StartsWith(p, base) then Err(StripPrefix)
    else
      var rest := Render(p[|base|..]);
      if rest == "" then Ok("") else Ok("/" + rest)
  }

  /** The `parent` field: the parent's relative path, or nothing when there
      is no parent or it is not under `base`. */
  function ParentDisplay(dir: Path, base: Path): (r: Option<string>)
    ensures r.Some? <==> Parent(dir).Some? && StartsWith(Parent(dir).value, base)
  {
    match Parent(dir)
    case None => None
    case Some(q) =>
      match RelativePath(q, base)
      case Ok(s) => Some(s)
      case Err(_) => None
  }

  /** `list_files(dir, base_dir)`: the visible entries in enumeration order,
      the directory's and its parent's relative paths.  Reading the
      directory fails first; a directory outside `base` fails after it. */
  function ListFiles(fs: FileSystem, os: Os, dir: Path, base: Path): (r: Result<FilesResult>)
    ensures r.Ok? <==> ReadDir(fs, os, dir).Ok? && StartsWith(dir, base)
    ensures ReadDir(fs, os, dir).Err? ==> r == Err(ReadDir(fs, os, dir).error)
    ensures ReadDir(fs, os, dir).Ok? && !StartsWith(dir, base) ==> r == Err(StripPrefix)
    ensures r.Ok? ==> NoneHidden(r.value.files) && AllTypedByKind(r.value.files)
    ensures r.Ok? ==> r.value.parent == ParentDisplay(dir, base)
    ensures r.Ok? ==> Ok(r.value.path) == RelativePath(dir, base)
  {
    match ReadDir(fs, os, dir)
    case Err(e) => Err(e)
    case Ok(en) =>
      var files := Visible(EntryInfos(fs, dir, en));
      match RelativePath(dir, base)
      case Err(e) => Err(e)
      case Ok(path) => Ok(FilesResult(files, path, ParentDisplay(dir, base)))
  }

  // ---------------------------------------------------------------------
  // Search

  /** The pattern `query_files` hands to `glob`: `"{base}/**/{query}*"`. */
  function QueryPattern(query: string, base: Path): (pattern: string)
    ensures |pattern| == |Render(base)| + |query| + 5
    ensures pattern[..|Render(base)|] == Render(base)
    ensures pattern[|Render(base)|..|Render(base)| + 4] == "/**/"
    ensures pattern[|Render(base)| + 4..|pattern| - 1] == query && pattern[|pattern| - 1] == '*'
  {
    Render(base) + "/**/" + query + "*"
  }

  /** Every path the walk yields has a file name (`file_name().unwrap()`). */
  predicate NamedMatches(paths: seq<Option<Path>>)
  {
    forall i :: 0 <= i < |paths| && paths[i].Some? ==> FileName(paths[i].value).Some?
  }

  /** The `FileInfo` of a match: `is_dir()` asks the tree, and only the last
      component gives the name. */
  function MatchInfo(fs: FileSystem, p: Path): (f: FileInfo)
    requires FileName(p).Some?
    ensures f.name == FileName(p).value && TypedByKind(f)
    ensures f.isDir <==> fs.IsDirAt(p)
  {
    var isDir := fs.IsDirAt(p);
    FileInfo(FileName(p).value, isDir, if isDir then None else Some(Classify(fs.SniffAt(p))))
  }

  /** `filter_map(|p| p.ok()).map(...)`: walk errors vanish. */
  function MatchInfos(fs: FileSystem, paths: seq<Option<Path>>): (r: seq<FileInfo>)
    requires NamedMatches(paths)
    ensures AllTypedByKind(r)
    decreases |paths|
  {
    if paths == [] then []
    else
      var last := paths[|paths| - 1];
      MatchInfos(fs, paths[..|paths| - 1]) + (if last.Some? then [MatchInfo(fs, last.value)] else [])
  }

  /** `query_files(query, base_dir)`: a pattern error fails the search;
      otherwise the visible matches in the order the walk yields them. */
  function QueryFiles(fs: FileSystem, os: Os, query: string, base: Path): (r: Result<seq<FileInfo>>)
    requires os.glob(fs, QueryPattern(query, base)).Matches? ==> NamedMatches(os.glob(fs, QueryPattern(query, base)).paths)
    ensures r.Err? <==> os.glob(fs, QueryPattern(query, base)).PatternError?
    ensures r.Err? ==> r.error == Pattern(os.glob(fs, QueryPattern(query, base)).pos, os.glob(fs, QueryPattern(query, base)).msg)
    ensures r.Ok? ==> NoneHidden(r.value) && AllTypedByKind(r.value)
  {
    match os.glob(fs, QueryPattern(query, base))
    case PatternError(pos, msg) => Err(Pattern(pos, msg))
    case Matches(paths) => Ok(Visible(MatchInfos(fs, paths)))
  }

  // ---------------------------------------------------------------------
  // Changes to the tree, as the platform carries them out

  /** The resolved path sits directly in a directory the process may write. */
  predicate CanPlace(fs: FileSystem, p: Path)
  {
    var q := Resolve(p);
    && Canonical(q) && |q| > 1
    && q[..|q| - 1] in fs.nodes && fs.nodes[q[..|q| - 1]].Dir?
    && q[..|q| - 1] !in fs.denied
  }

  /** `std::fs::create_dir`: only a new entry of a writable directory. */
  predicate CanCreateDir(fs: FileSystem, p: Path)
  {
    CanPlace(fs, p) && Resolve(p) !in fs.nodes
  }

  /** `std::fs::remove_file`: only an existing file (never a directory). */
  predicate CanRemoveFile(fs: FileSystem, p: Path)
  {
    CanPlace(fs, p) && fs.IsFileAt(p)
  }

  /** `TempFile::persist` (a rename): anything but a directory may be
      replaced. */
  predicate CanPersist(fs: FileSystem, p: Path)
  {
    CanPlace(fs, p) && !fs.IsDirAt(p)
  }

  /** An upload as the multipart form delivers it: the client's file name, if
      any, and the outcome of sniffing its bytes. */
  datatype TempFile = TempFile(fileName: Option<string>, format: Option<FileFormat>)

  /** One item of what `save_files` yields: `(name, persist_result)`. */
  datatype Saved = Saved(name: string, result: Result<Unit>)

  /** Where an upload named `name` goes: `dir.join(&name)`. */
  function UploadTarget(dir: Path, name: string): Path
  {
    Join(dir, Parse(name))
  }

  /** Persisting one upload: the tree after it and the reported outcome. */
  function PersistUpload(fs: FileSystem, target: Path, format: Option<FileFormat>): (r: (FileSystem, Result<Unit>))
    ensures r.1.Ok? <==> CanPersist(fs, target)
    ensures r.1.Err? ==> r.0 == fs && r.1.error == Io("Persisting file")
    ensures r.1.Ok? ==> r.0 == fs.(nodes := fs.nodes[Resolve(target) := File(format)])
  {
    if CanPersist(fs, target) then (fs.(nodes := fs.nodes[Resolve(target) := File(format)]), Ok(Unit))
    else (fs, Err(Io("Persisting file")))
  }

  /** `save_files(files, dir)`, run to the end: unnamed uploads are dropped,
      each named one is persisted in turn, and every outcome is reported. */
  function SaveAll(fs: FileSystem, files: seq<TempFile>, dir: Path): (FileSystem, seq<Saved>)
    decreases |files|
  {
    if files == [] then (fs, [])
    else
      var before := SaveAll(fs, files[..|files| - 1], dir);
      var f := files[|files| - 1];
      if f.fileName.None? then before
      else
        var step := PersistUpload(before.0, UploadTarget(dir, f.fileName.value), f.format);
        (step.0, before.1 + [Saved(f.fileName.value, step.1)])
  }

  /** The names of the uploads that have one, in order. */
  function UploadNames(files: seq<TempFile>): seq<string>
    decreases |files|
  {
    if files == [] then []
    else
      var f := files[|files| - 1];
      UploadNames(files[..|files| - 1]) + (if f.fileName.Some? then [f.fileName.value] else [])
  }

  function SavedNames(results: seq<Saved>): (r: seq<string>)
    ensures |r| == |results|
    ensures forall k :: 0 <= k < |results| ==> r[k] == results[k].name
  {
    if results == [] then [] else [results[0].name] + SavedNames(results[1..])
  }

  /** The tree held by the drive, with the operations that change it. */
  class Drive {
    var nodes: map<Path, Node>
    const denied: set<Path>

    function State(): FileSystem
      reads this
    {
      FileSystem(nodes, denied)
    }

    ghost predicate Valid()
      reads this
    {
      Tree(nodes)
    }

    constructor (nodes: map<Path, Node>, denied: set<Path>)
      requires Tree(nodes)
      ensures Valid() && this.nodes == nodes && this.denied == denied
    {
      this.nodes := nodes;
      this.denied := denied;
    }

    /** `drive_access::create_dir`. */
    method CreateDir(newDirPath: Path) returns (r: Result<Unit>)
      requires Valid()
      modifies this
      ensures Valid()
      ensures r.Ok? <==> CanCreateDir(old(State()), newDirPath)
      ensures r.Ok? ==> nodes == old(nodes)[Resolve(newDirPath) := Dir]
      ensures r.Err? ==> nodes == old(nodes) && r.error == Io("Creating directory " + DebugQuote(Render(newDirPath)))
    {
      if CanCreateDir(State(), newDirPath) {
        var q := Resolve(newDirPath);
        nodes := nodes[q := Dir];
        r := Ok(Unit);
      } else {
        r := Err(Io("Creating directory " + DebugQuote(Render(newDirPath))));
      }
    }

    /** `drive_access::delete_file`: `std::fs::remove_file`, which removes a
        single file and refuses a directory. */
    method DeleteFile(path: Path) returns (r: Result<Unit>)
      requires Valid()
      modifies this
      ensures Valid()
      ensures r.Ok? <==> CanRemoveFile(old(State()), path)
      ensures r.Ok? ==> nodes == old(nodes) - {Resolve(path)}
      ensures r.Err? ==> nodes == old(nodes) && r.error == Io("Deleting " + DebugQuote(Render(path)))
    {
      if CanRemoveFile(State(), path) {
        var q := Resolve(path);
        nodes := nodes - {q};
        r := Ok(Unit);
      } else {
        r := Err(Io("Deleting " + DebugQuote(Render(path))));
      }
    }

    /** `file.file.persist(path).context("Persisting file")`. */
    method Persist(target: Path, format: Option<FileFormat>) returns (r: Result<Unit>)
      requires Valid()
      modifies this
      ensures Valid()
      ensures (State(), r) == PersistUpload(old(State()), target, format)
    {
      if CanPersist(State(), target) {
        var q := Resolve(target);
        nodes := nodes[q := File(format)];
        r := Ok(Unit);
      } else {
        r := Err(Io("Persisting file"));
      }
    }

    /** `save_files(files, dir)`, consumed to the end as the upload handler
        does. */
    method SaveFiles(files: seq<TempFile>, dir: Path) returns (results: seq<Saved>)
      requires Valid()
      modifies this
      ensures Valid()
      ensures (State(), results) == SaveAll(old(State()), files, dir)
    {
      results := [];
      var i := 0;
      while i < |files|
        invariant 0 <= i <= |files|
        invariant Valid()
        invariant (State(), results) == SaveAll(old(State()), files[..i], dir)
      {
        var f := files[i];
        assert files[..i + 1][..i] == files[..i];
        if f.fileName.Some? {
          var r := Persist(UploadTarget(dir, f.fileName.value), f.format);
          results := results + [Saved(f.fileName.value, r)];
        }
        i := i + 1;
      }
      assert files[..|files|] == files;
    }
  }
}
