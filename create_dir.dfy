/** `src/webservices/create_dir.rs`: PUT on a guarded path with
    `command: new_folder`.  The new folder's name comes from a form, a JSON
    body or a multipart form alike; the folder is created at
    `dir_path.join(name)` (the name is not checked again by the guard), and
    on success the containing directory, not the new one, is listed. */
module CreateDirHandler {
  import opened Common
  import opened Paths
  import opened Platform
  import opened DriveAccess
  import opened DriveAccessLemmas
  import opened Http
  import opened Server
  import opened Renderer
  import opened Serialization
  import opened MultitypeInput

  datatype NewDirRequest = NewDirRequest(newFolderName: string)
  datatype NewDirForm = NewDirForm(newFolderName: string)

  type NewDirInput = InputExtended<NewDirRequest, NewDirForm>

  /** The folder name, whichever of the three forms carried it. */
  function NewDirName(input: NewDirInput): (n: string)
    ensures input.Left? ==> n == input.left.newFolderName
    ensures input.Right? && input.right.Left? ==> n == input.right.left.newFolderName
    ensures input.Right? && input.right.Right? ==> n == input.right.right.newFolderName
  {
    match Flatten(input)
    case Left(form) => form.newFolderName
    case Right(form) => form.newFolderName
  }

  /** `dir_path.join(new_dir_name)`. */
  function NewDirTarget(dirPath: Path, name: string): (p: Path)
    ensures |name| > 0 && name[0] == '/' ==> p == Parse(name)
    ensures ValidName(name) && dirPath != [] ==> p == dirPath + [Normal(name)]
  {
    ParseName(name);
    Join(dirPath, Parse(name))
  }

  /** What follows a successful creation: the `files_listing` fragment of
      the containing directory, or 500 when it cannot be listed. */
  function ListingAnswer(fs: FileSystem, os: Os, dirPath: Path, base: Path, hb: Templates): (r: Response)
    ensures ListFiles(fs, os, dirPath, base).Err? <==> r == ServerError(None)
    ensures ListFiles(fs, os, dirPath, base).Ok? ==>
              r == OkText(hb("files_listing", FilesResultJson(ListFiles(fs, os, dirPath, base).value)))
  {
    match ListFiles(fs, os, dirPath, base)
    case Ok(data) => OkText(hb("files_listing", FilesResultJson(data)))
    case Err(_) => ServerError(None)
  }

  /** `create_dir::handle`: a failed creation is a 500 with nothing listed
      and nothing changed. */
  method Handle(drive: Drive, os: Os, base: Path, rp: RequestedPath, input: NewDirInput, hb: Templates)
    returns (r: Response)
    requires drive.Valid()
    modifies drive
    ensures drive.Valid()
    ensures var target := NewDirTarget(Rejoined(base, rp), NewDirName(input));
            && (CanCreateDir(old(drive.State()), target) ==>
                  drive.nodes == old(drive.nodes)[Resolve(target) := Dir] &&
                  r == ListingAnswer(drive.State(), os, Rejoined(base, rp), base, hb))
            && (!CanCreateDir(old(drive.State()), target) ==>
                  drive.nodes == old(drive.nodes) && r == ServerError(None))
  {
    var dirPath := Rejoined(base, rp);
    var newDirName := NewDirName(input);
    var newDirPath := NewDirTarget(dirPath, newDirName);
    var created := drive.CreateDir(newDirPath);
    match created {
      case Ok(_) =>
        r := ListingAnswer(drive.State(), os, dirPath, base, hb);
      case Err(_) =>
        r := ServerError(None);
    }
  }

  /** After a successful creation under a proper, visible name, the listing
      the handler answers with shows the new folder (when the directory
      reads back faithfully). */
  lemma CreatedFolderIsListed(fs: FileSystem, os: Os, dirPath: Path, base: Path, name: string)
    requires ValidName(name) && !IsHidden(name) && dirPath != []
    requires CanCreateDir(fs, NewDirTarget(dirPath, name))
    requires var after := fs.(nodes := fs.nodes[Resolve(NewDirTarget(dirPath, name)) := Dir]);
             && ListFiles(after, os, dirPath, base).Ok?
             && Enumerates(after, dirPath, os.order(after, dirPath)) && AllReadable(os.order(after, dirPath))
    ensures var after := fs.(nodes := fs.nodes[Resolve(NewDirTarget(dirPath, name)) := Dir]);
            exists k :: 0 <= k < |ListFiles(after, os, dirPath, base).value.files| &&
                        ListFiles(after, os, dirPath, base).value.files[k].name == name
  {
    var after := fs.(nodes := fs.nodes[Resolve(NewDirTarget(dirPath, name)) := Dir]);
    ResolveAppendName(dirPath, name);
    assert after.HasChild(dirPath, name);
    ListingMatchesTree(after, os, dirPath, base, name);
  }
}
