/** The JSON that `serde::Serialize` derives for the records of
    `src/drive_access.rs` (`FileType`, `FileInfo`, `FilesResult`): one member
    per field under the field's Rust name, `null` for `None`.  The decoders
    read that JSON back, and the round trips show that nothing is lost. */
module Serialization {
  import opened Common
  import opened DriveAccess

  function OptionString(s: Option<string>): Json
  {
    match s
    case None => JNull
    case Some(v) => JString(v)
  }

  function FileTypeJson(t: FileType): Json
  {
    JObject(map["mime" := JString(t.mime), "f_type" := JString(t.fType)])
  }

  function FileInfoJson(f: FileInfo): Json
  {
    JObject(map[
      "name" := JString(f.name),
      "is_dir" := JBool(f.isDir),
      "file_type" := match f.fileType case None => JNull case Some(t) => FileTypeJson(t)])
  }

  /** A `Vec<FileInfo>`: an array with one object per file, in order. */
  function FilesJson(files: seq<FileInfo>): (j: Json)
    ensures j.JArray? && |j.items| == |files|
    ensures forall k :: 0 <= k < |files| ==> j.items[k] == FileInfoJson(files[k])
  {
    JArray(seq(|files|, k requires 0 <= k < |files| => FileInfoJson(files[k])))
  }

  function FilesResultJson(r: FilesResult): Json
  {
    JObject(map["files" := FilesJson(r.files), "path" := JString(r.path), "parent" := OptionString(r.parent)])
  }

  // ---------------------------------------------------------------------
  // Reading the JSON back

  function StringOf(j: Json): Option<string>
  {
    if j.JString? then Some(j.s) else None
  }

  function OptionStringOf(j: Json): Option<Option<string>>
  {
    match j
    case JNull => Some(None)
    case JString(s) => Some(Some(s))
    case _ => None
  }

  function FileTypeOf(j: Json): Option<FileType>
  {
    if j.JObject? && "mime" in j.fields && "f_type" in j.fields
       && j.fields["mime"].JString? && j.fields["f_type"].JString?
    then Some(FileType(j.fields["mime"].s, j.fields["f_type"].s))
    else None
  }

  function FileInfoOf(j: Json): Option<FileInfo>
  {
    if j.JObject? && "name" in j.fields && "is_dir" in j.fields && "file_type" in j.fields
       && j.fields["name"].JString? && j.fields["is_dir"].JBool?
    then
      var ft := j.fields["file_type"];
      if ft.JNull? then Some(FileInfo(j.fields["name"].s, j.fields["is_dir"].b, None))
      else match FileTypeOf(ft)
        case None => None
        case Some(t) => Some(FileInfo(j.fields["name"].s, j.fields["is_dir"].b, Some(t)))
    else None
  }

  function FilesOf(items: seq<Json>): Option<seq<FileInfo>>
    decreases |items|
  {
    if items == [] then Some([])
    else match (FilesOf(items[..|items| - 1]), FileInfoOf(items[|items| - 1]))
      case (Some(fs), Some(f)) => Some(fs + [f])
      case _ => None
  }

  function FilesResultOf(j: Json): Option<FilesResult>
  {
    if j.JObject? && "files" in j.fields && "path" in j.fields && "parent" in j.fields
       && j.fields["files"].JArray? && j.fields["path"].JString?
    then
      match (FilesOf(j.fields["files"].items), OptionStringOf(j.fields["parent"]))
      case (Some(files), Some(parent)) => Some(FilesResult(files, j.fields["path"].s, parent))
      case _ => None
    else None
  }

  lemma FileInfoRoundTrip(f: FileInfo)
    ensures FileInfoOf(FileInfoJson(f)) == Some(f)
  {
    if f.fileType.Some? {
      assert FileTypeOf(FileTypeJson(f.fileType.value)) == Some(f.fileType.value);
    }
  }

  lemma {:induction false} FilesRoundTrip(files: seq<FileInfo>)
    ensures FilesOf(FilesJson(files).items) == Some(files)
    decreases |files|
  {
    if files != [] {
      var n := |files|;
      var init := files[..n - 1];
      FilesRoundTrip(init);
      assert FilesJson(files).items[..n - 1] == FilesJson(init).items;
      FileInfoRoundTrip(files[n - 1]);
      assert init + [files[n - 1]] == files;
    }
  }

  /** The JSON of a listing reads back as the same listing. */
  lemma FilesResultRoundTrip(r: FilesResult)
    ensures FilesResultOf(FilesResultJson(r)) == Some(r)
  {
    FilesRoundTrip(r.files);
  }
}
