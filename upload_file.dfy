/** `src/webservices/upload_file.rs`: PUT on a guarded path without
    `command: new_folder`.  Every named upload is saved into the directory,
    one summary entry is made per saved or failed upload, and the directory
    is listed after all saves.  When any `Accept` item has the subtype
    `json` the answer is JSON, otherwise the listing fragment followed by a
    toast; a failed listing is a 500 whatever the saves did. */
module UploadFileHandler {
  import opened Common
  import opened Paths
  import opened Platform
  import opened DriveAccess
  import opened DriveAccessLemmas
  import opened Http
  import opened Server
  import opened Renderer
  import opened Serialization
  import DeleteFileHandler

  /** One item of the parsed `Accept` header. */
  datatype MediaRange = MediaRange(mainType: string, subtype: string)

  /** `accept_header.iter().any(|h| h.item.subtype() == "json")`. */
  function AcceptsJson(accept: seq<MediaRange>): (b: bool)
    ensures b <==> exists i :: 0 <= i < |accept| && accept[i].subtype == "json"
    decreases |accept|
  {
    if accept == [] then false
    else AcceptsJson(accept[..|accept| - 1]) || accept[|accept| - 1].subtype == "json"
  }

  /** The text of one summary entry. */
  function SummaryMessage(s: Saved): string
  {
    match s.result
    case Ok(_) => "File " + s.name + " saved"
    case Err(e) => "File " + s.name + " failed to save: " + Display(e)
  }

  /** `{"message": ..., "isError": ...}` for one save outcome. */
  function SummaryItem(s: Saved): (j: Json)
    ensures j.JObject? && j.fields.Keys == {"message", "isError"}
    ensures j.fields["isError"] == JBool(s.result.Err?)
    ensures j.fields["message"] == JString(SummaryMessage(s))
  {
    JObject(map["message" := JString(SummaryMessage(s)), "isError" := JBool(s.result.Err?)])
  }

  /** The `summary` vector: one entry per save outcome, in order. */
  function Summary(results: seq<Saved>): (j: seq<Json>)
    ensures |j| == |results|
    ensures forall k :: 0 <= k < |results| ==> j[k] == SummaryItem(results[k])
  {
    seq(|results|, k requires 0 <= k < |results| => SummaryItem(results[k]))
  }

  /** The answer once all saves are done, from the tree after them. */
  function UploadAnswer(fs: FileSystem, os: Os, dirPath: Path, base: Path, results: seq<Saved>,
                        accept: seq<MediaRange>, hb: Templates): (r: Response)
    ensures ListFiles(fs, os, dirPath, base).Err? <==> r == ServerError(None)
    ensures ListFiles(fs, os, dirPath, base).Ok? && AcceptsJson(accept) ==>
              r.Plain? && r.status == 200 && r.contentType == Some(JsonType) && r.body.JsonBody? &&
              r.body.value.JObject? && r.body.value.fields.Keys == {"files", "message"} &&
              FilesResultOf(r.body.value.fields["files"]) == Some(ListFiles(fs, os, dirPath, base).value) &&
              r.body.value.fields["message"] == JString(hb("upload_file_summary_message", JArray(Summary(results))))
    ensures ListFiles(fs, os, dirPath, base).Ok? && !AcceptsJson(accept) ==>
              r == OkText(hb("files_listing", FilesResultJson(ListFiles(fs, os, dirPath, base).value)) +
                          hb("confirmation_toast", DeleteFileHandler.Toast(hb("upload_file_summary_message", JArray(Summary(results))))))
  {
    match ListFiles(fs, os, dirPath, base)
    case Err(_) => ServerError(None)
    case Ok(data) =>
      var body := hb("files_listing", FilesResultJson(data));
      var summary := hb("upload_file_summary_message", JArray(Summary(results)));
      var toast := hb("confirmation_toast", DeleteFileHandler.Toast(summary));
      if AcceptsJson(accept) then
        FilesResultRoundTrip(data);
        Plain(200, Some(JsonType), None, JsonBody(JObject(map["files" := FilesResultJson(data), "message" := JString(summary)])))
      else OkText(body + toast)
  }

  /** `upload_file::handle`: the saves change the tree as `SaveAll` says,
      and the answer is built from the tree after all of them. */
  method Handle(drive: Drive, os: Os, base: Path, rp: RequestedPath, files: seq<TempFile>,
                accept: seq<MediaRange>, hb: Templates) returns (r: Response)
    requires drive.Valid()
    modifies drive
    ensures drive.Valid()
    ensures var saved := SaveAll(old(drive.State()), files, Rejoined(base, rp));
            drive.State() == saved.0 &&
            r == UploadAnswer(saved.0, os, Rejoined(base, rp), base, saved.1, accept, hb)
  {
    var dirPath := Rejoined(base, rp);
    var results := drive.SaveFiles(files, dirPath);
    r := UploadAnswer(drive.State(), os, dirPath, base, results, accept, hb);
  }

  /** The summary has one entry per named upload, in upload order, and each
      entry names its upload and says whether it failed. */
  lemma SummaryPerNamedUpload(fs: FileSystem, files: seq<TempFile>, dir: Path)
    ensures var results := SaveAll(fs, files, dir).1;
            && |Summary(results)| == |UploadNames(files)|
            && forall k :: 0 <= k < |results| ==>
                 && results[k].name == UploadNames(files)[k]
                 && Summary(results)[k].fields["isError"] == JBool(results[k].result.Err?)
                 && (results[k].result.Ok? ==>
                       Summary(results)[k].fields["message"] == JString("File " + UploadNames(files)[k] + " saved"))
  {
    SaveAllReportsEveryNamedUpload(fs, files, dir);
    var results := SaveAll(fs, files, dir).1;
    assert |SavedNames(results)| == |results|;
  }

  /** Every upload reported saved under a proper, visible name shows in the
      listing the handler answers with (when the directory reads back
      faithfully). */
  lemma SavedUploadsAreListed(fs: FileSystem, os: Os, files: seq<TempFile>, dir: Path, base: Path)
    requires dir != []
    requires var after := SaveAll(fs, files, dir).0;
             && ListFiles(after, os, dir, base).Ok?
             && Enumerates(after, dir, os.order(after, dir)) && AllReadable(os.order(after, dir))
    ensures var saved := SaveAll(fs, files, dir);
            forall k :: 0 <= k < |saved.1| && saved.1[k].result.Ok? &&
                        ValidName(saved.1[k].name) && !IsHidden(saved.1[k].name) ==>
              exists i :: 0 <= i < |ListFiles(saved.0, os, dir, base).value.files| &&
                          ListFiles(saved.0, os, dir, base).value.files[i].name == saved.1[k].name
  {
    var saved := SaveAll(fs, files, dir);
    SaveAllSavedAreFiles(fs, files, dir);
    forall k | 0 <= k < |saved.1| && saved.1[k].result.Ok? && ValidName(saved.1[k].name) && !IsHidden(saved.1[k].name)
      ensures exists i :: 0 <= i < |ListFiles(saved.0, os, dir, base).value.files| &&
                          ListFiles(saved.0, os, dir, base).value.files[i].name == saved.1[k].name
    {
      var n := saved.1[k].name;
      ParseName(n);
      assert UploadTarget(dir, n) == dir + [Normal(n)];
      ResolveAppendName(dir, n);
      assert saved.0.HasChild(dir, n);
      ListingMatchesTree(saved.0, os, dir, base, n);
    }
  }
}
