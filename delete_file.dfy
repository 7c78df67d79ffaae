/** `src/webservices/delete_file.rs`: DELETE on a guarded path.  The guarded
    path itself is removed; on success its parent is listed and followed by
    a `File deleted` toast.  A failed removal is a 500 with reason
    `Failed to delete file` and nothing listed; a failed listing is a 500
    with reason `Failed to fetch files`. */
module DeleteFileHandler {
  import opened Common
  import opened Paths
  import opened Platform
  import opened DriveAccess
  import opened DriveAccessLemmas
  import opened Http
  import opened Server
  import opened Renderer
  import opened Serialization

  /** `json!({ "message": message })`, the data of the `confirmation_toast`
      template. */
  function Toast(message: string): Json
  {
    JObject(map["message" := JString(message)])
  }

  /** What follows a successful removal of `target`: the listing of its
      parent with the toast after it, or 500 when the parent cannot be
      listed. */
  function AfterDeletion(fs: FileSystem, os: Os, target: Path, base: Path, hb: Templates): (r: Response)
    requires Parent(target).Some?
    ensures ListFiles(fs, os, Parent(target).value, base).Err? ==> r == ServerError(Some("Failed to fetch files"))
    ensures ListFiles(fs, os, Parent(target).value, base).Ok? ==>
              r == OkText(hb("files_listing", FilesResultJson(ListFiles(fs, os, Parent(target).value, base).value)) +
                          hb("confirmation_toast", Toast("File deleted")))
  {
    match ListFiles(fs, os, Parent(target).value, base)
    case Ok(data) => OkText(hb("files_listing", FilesResultJson(data)) + hb("confirmation_toast", Toast("File deleted")))
    case Err(_) => ServerError(Some("Failed to fetch files"))
  }

  /** `delete_file::handle`, with the removal as `DriveAccess`'s
      non-recursive `delete_file`. */
  method Handle(drive: Drive, os: Os, base: Path, rp: RequestedPath, hb: Templates) returns (r: Response)
    requires drive.Valid()
    modifies drive
    ensures drive.Valid()
    ensures CanRemoveFile(old(drive.State()), Rejoined(base, rp)) ==>
              && Parent(Rejoined(base, rp)).Some?
              && drive.nodes == old(drive.nodes) - {Resolve(Rejoined(base, rp))}
              && r == AfterDeletion(drive.State(), os, Rejoined(base, rp), base, hb)
    ensures !CanRemoveFile(old(drive.State()), Rejoined(base, rp)) ==>
              drive.nodes == old(drive.nodes) && r == ServerError(Some("Failed to delete file"))
  {
    var dirPath := Rejoined(base, rp);
    var deleted := drive.DeleteFile(dirPath);
    match deleted {
      case Ok(_) =>
        r := AfterDeletion(drive.State(), os, dirPath, base, hb);
      case Err(_) =>
        r := ServerError(Some("Failed to delete file"));
    }
  }

  /** Once the target's node is gone, its name is no entry of its parent. */
  lemma RemovedIsNoChild(fs: FileSystem, target: Path)
    requires |target| > 0 && target[|target| - 1].Normal?
    ensures !fs.(nodes := fs.nodes - {Resolve(target)}).HasChild(Parent(target).value, target[|target| - 1].name)
  {
    var dir := Parent(target).value;
    var n := target[|target| - 1].name;
    assert target == dir + [Normal(n)];
    ResolveAppendName(dir, n);
  }

  /** After a successful removal, the listing the handler answers with no
      longer shows the removed name, whatever items of the enumeration
      fail (when the parent reads back faithfully). */
  lemma DeletedNameNotListed(fs: FileSystem, os: Os, target: Path, base: Path)
    requires |target| > 0 && target[|target| - 1].Normal?
    requires var after := fs.(nodes := fs.nodes - {Resolve(target)});
             && ListFiles(after, os, Parent(target).value, base).Ok?
             && Enumerates(after, Parent(target).value, os.order(after, Parent(target).value))
    ensures var after := fs.(nodes := fs.nodes - {Resolve(target)});
            forall k :: 0 <= k < |ListFiles(after, os, Parent(target).value, base).value.files| ==>
              ListFiles(after, os, Parent(target).value, base).value.files[k].name != target[|target| - 1].name
  {
    var after := fs.(nodes := fs.nodes - {Resolve(target)});
    var dir := Parent(target).value;
    var n := target[|target| - 1].name;
    RemovedIsNoChild(fs, target);
    var files := ListFiles(after, os, dir, base).value.files;
    ListingOnlyChildren(after, os, dir, base);
    forall k | 0 <= k < |files| ensures files[k].name != n {
      assert after.HasChild(dir, files[k].name);
    }
  }
}
