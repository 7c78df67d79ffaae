/** `src/webservices/list_files.rs`: a regular file is answered with the file
    itself, anything else (a directory or a missing path) with its listing. */
module ListFilesOrContents {
  import opened Common
  import opened Paths
  import opened Platform
  import opened DriveAccess

  /** `list_files_or_file_contents(path, base_dir)`: `Right` carries the path
      of the opened file (`NamedFile::open`), `Left` the listing. */
  function ListFilesOrFileContents(fs: FileSystem, os: Os, path: Path, base: Path): (r: Result<Either<FilesResult, Path>>)
    ensures fs.IsFileAt(path) && Resolve(path) !in fs.denied ==> r == Ok(Right(path))
    ensures fs.IsFileAt(path) && Resolve(path) in fs.denied ==> r == Err(Io("Could not open file"))
    ensures !fs.IsFileAt(path) ==> r.Ok? == ListFiles(fs, os, path, base).Ok?
    ensures !fs.IsFileAt(path) && r.Ok? ==> r.value == Left(ListFiles(fs, os, path, base).value)
    ensures !fs.IsFileAt(path) && r.Err? ==> r.error == ListFiles(fs, os, path, base).error
  {
    if fs.IsFileAt(path) then
      if Resolve(path) in fs.denied then Err(Io("Could not open file")) else Ok(Right(path))
    else
      match ListFiles(fs, os, path, base)
      case Ok(data) => Ok(Left(data))
      case Err(e) => Err(e)
  }

  /** No error out of here is a `FileListInputError`: the listing fails with
      an I/O error or a prefix error, opening a file with an I/O error. */
  lemma NeverInvalidPath(fs: FileSystem, os: Os, path: Path, base: Path)
    requires ListFilesOrFileContents(fs, os, path, base).Err?
    ensures !ListFilesOrFileContents(fs, os, path, base).error.InvalidPath?
  {
  }
}
