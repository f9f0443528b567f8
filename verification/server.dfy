/**
 * The Flask routes of the back end (music-backend/app.py): upload, status shaping, result
 * and file serving. Celery, the request object and `send_from_directory` are not modelled;
 * a task is given by its state and info, a request by its fields.
 */
module Server {
  import opened Wrappers
  import opened Analysis
  import Text
  import FileUrls

  /** What the task stored with `update_state(meta=...)`; `None` is an absent key. */
  datatype Meta = Meta(
    status: Option<string>, step: Option<string>, progress: Option<real>, partial: Option<PartialResult>)

  /**
   * A Celery task as the routes see it: its state, its info when that is a dict, and
   * `str(info)` (for a failed task, the exception's message).
   */
  datatype CeleryTask = CeleryTask(state: TaskState, meta: Option<Meta>, infoText: string)

  /** The `info` the route copies out of a processing task's meta: only the keys present. */
  function ProcessingInfo(m: Meta): (r: Option<StatusInfo>)
    ensures r.None? <==> m.step.None? && m.progress.None? && m.partial.None?
    ensures r.Some? ==> r.value == StatusInfo(None, m.step, m.progress, m.partial, None)
  {
    if m.step.None? && m.progress.None? && m.partial.None? then None
    else Some(StatusInfo(None, m.step, m.progress, m.partial, None))
  }

  /** `GET /status/<task_id>`. */
  function GetStatus(taskId: string, t: CeleryTask): (r: StatusResponse)
    ensures r.taskId == taskId && r.state == t.state && r.status.Some?
    ensures t.state.Pending? ==> r.status == Some("Pending...") && r.info.None? && r.error.None?
    ensures t.state.Success? ==>
      && r.status == Some("Analysis complete!")
      && r.info == Some(StatusInfo(None, None, Some(100.0), None, None))
      && r.error.None?
    ensures t.state.Processing? && t.meta.None? ==>
      r.status == Some("Processing...") && r.info.None? && r.error.None?
    ensures t.state.Processing? && t.meta.Some? ==>
      && r.status == Some(t.meta.value.status.GetOr("Processing..."))
      && r.info == ProcessingInfo(t.meta.value)
      && r.error.None?
    ensures t.state.Revoked? ==> r.status == Some("Task cancelled by user.") && r.info.None? && r.error.None?
    ensures t.state.Failure? || t.state.OtherState? ==>
      r.status == Some("Something went wrong") && r.info.None? && r.error == Some(t.infoText)
  {
    match t.state
    case Pending => StatusResponse(taskId, t.state, Some("Pending..."), None, None)
    case Success =>
      StatusResponse(taskId, t.state, Some("Analysis complete!"), Some(StatusInfo(None, None, Some(100.0), None, None)), None)
    case Processing =>
      if t.meta.Some? then
        StatusResponse(taskId, t.state, Some(t.meta.value.status.GetOr("Processing...")), ProcessingInfo(t.meta.value), None)
      else StatusResponse(taskId, t.state, Some("Processing..."), None, None)
    case Revoked => StatusResponse(taskId, t.state, Some("Task cancelled by user."), None, None)
    case _ => StatusResponse(taskId, t.state, Some("Something went wrong"), None, Some(t.infoText))
  }

  /**
   * The response never carries a message inside `info`: the status text and the error are
   * top-level fields, and an error is reported exactly for failed or unknown states.
   */
  lemma StatusMessagesTopLevel(taskId: string, t: CeleryTask)
    ensures var r := GetStatus(taskId, t);
      && (r.info.Some? ==> r.info.value.status.None? && r.info.value.error.None?)
      && (r.error.Some? <==> t.state.Failure? || t.state.OtherState?)
  {
  }

  /** `GET /result/<task_id>`: the task's return value once it succeeded, else 400. */
  function GetResult(t: CeleryTask, value: AnalysisResult): (r: (int, Option<AnalysisResult>))
    ensures t.state.Success? <==> r.0 == 200
    ensures t.state.Success? ==> r.1 == Some(value)
    ensures !t.state.Success? ==> r == (400, None)
  {
    if t.state.Success? then (200, Some(value)) else (400, None)
  }

  /** An uploaded file part. */
  datatype FilePart = FilePart(filename: string)

  datatype UploadReply =
    | UploadRejected(code: int, error: string)
    | UploadAccepted(code: int, taskId: string, savedAs: string)

  /** The folder as a prefix: a '/' is added unless it is empty or already ends in one. */
  function Slashed(folder: string): (p: string)
    ensures p == [] <==> folder == []
    ensures p != [] ==> p[|p| - 1] == '/'
    ensures Text.StartsWith(p, folder) && |p| <= |folder| + 1
  {
    if folder == [] || folder[|folder| - 1] == '/' then folder else folder + "/"
  }

  /**
   * `os.path.join(folder, name)` for POSIX paths: a name starting with '/' replaces the
   * folder; otherwise the folder is followed by a '/' (only when it needs one) and the name.
   */
  function JoinPath(folder: string, name: string): (r: string)
    ensures Text.StartsWith(name, "/") ==> r == name
    ensures !Text.StartsWith(name, "/") ==>
      Text.StartsWith(r, folder) && |name| <= |r| && r[|r| - |name|..] == name
    ensures !Text.StartsWith(name, "/") && folder != [] && folder[|folder| - 1] != '/' ==>
      r == folder + "/" + name
    ensures !Text.StartsWith(name, "/") && (folder == [] || folder[|folder| - 1] == '/') ==>
      r == folder + name
  {
    if Text.StartsWith(name, "/") then name else Slashed(folder) + name
  }

  /** Two slashes in a row. */
  predicate NoDoubleSlash(s: string) {
    forall i :: 0 <= i < |s| - 1 ==> !(s[i] == '/' && s[i + 1] == '/')
  }

  /** Joining never creates a `//`: the separator is added only where none is. */
  lemma JoinNoDoubleSlash(folder: string, name: string)
    requires NoDoubleSlash(folder) && NoDoubleSlash(name)
    ensures NoDoubleSlash(JoinPath(folder, name))
  {
    if !Text.StartsWith(name, "/") {
      var p := Slashed(folder);
      var r := p + name;
      forall i | 0 <= i < |r| - 1
        ensures !(r[i] == '/' && r[i + 1] == '/')
      {
        if i + 1 < |folder| {
          assert r[i] == folder[i] && r[i + 1] == folder[i + 1];
        } else if i + 1 < |p| {
          assert i + 1 == |folder| && r[i] == folder[i] && folder[i] != '/';
        } else if i + 1 == |p| {
          assert r[i + 1] == name[0];
        } else {
          assert r[i] == name[i - |p|] && r[i + 1] == name[i - |p| + 1];
        }
      }
    }
  }

  /**
   * `POST /upload`: 400 without a file part or with an empty file name; otherwise the file
   * is saved under the uploads folder and a new task (its id given) is started with 202.
   */
  function UploadFile(file: Option<FilePart>, newTaskId: string): (r: UploadReply)
    ensures file.None? ==> r == UploadRejected(400, "No file part")
    ensures file.Some? && file.value.filename == "" ==> r == UploadRejected(400, "No selected file")
    ensures r.UploadAccepted? <==> file.Some? && file.value.filename != ""
    ensures r.UploadAccepted? ==>
      r.code == 202 && r.taskId == newTaskId && r.savedAs == JoinPath("uploads", file.value.filename)
  {
    if file.None? then UploadRejected(400, "No file part")
    else if file.value.filename == "" then UploadRejected(400, "No selected file")
    else UploadAccepted(202, newTaskId, JoinPath("uploads", file.value.filename))
  }

  const AllowedFolders: seq<string> := ["results", "uploads"]

  /** `any(filename.startswith(folder + '/') for folder in allowed_folders)`. */
  predicate Allowed(filename: string) {
    exists k :: 0 <= k < |AllowedFolders| && Text.StartsWith(filename, AllowedFolders[k] + "/")
  }

  datatype FileReply = Denied(code: int) | Sent(path: string, asAttachment: bool)

  /** `GET /files/<path>`: allowed folders only; `?download=true` asks for an attachment. */
  function ServeFile(filename: string, download: Option<string>): (r: FileReply)
    ensures r.Denied? ==> r.code == 403
    ensures r.Sent? ==> r.path == filename && (r.asAttachment <==> download == Some("true"))
  {
    if !Allowed(filename) then Denied(403) else Sent(filename, download == Some("true"))
  }

  /** A file is served exactly when its path starts with `results/` or `uploads/`. */
  lemma ServedFolders(filename: string, download: Option<string>)
    ensures ServeFile(filename, download).Sent? <==>
      Text.StartsWith(filename, "results/") || Text.StartsWith(filename, "uploads/")
  {
    assert AllowedFolders[0] + "/" == "results/";
    assert AllowedFolders[1] + "/" == "uploads/";
  }

  /** The check looks at the prefix only: whatever follows `results/` is passed on. */
  lemma PrefixOnly(rest: string, download: Option<string>)
    ensures ServeFile("results/" + rest, download) == Sent("results/" + rest, download == Some("true"))
  {
    assert ("results/" + rest)[..8] == "results/";
    ServedFolders("results/" + rest, download);
  }

  /**
   * The front end's file URLs and this route agree: a result path as the task reports it
   * becomes `<base>/files/<path>`, and the route serves that path.
   */
  lemma ResultUrlServed(base: string, x: string)
    requires Text.StartsWith(x, "results/") && '\\' !in x && !Text.IsJsSpace(x[|x| - 1])
    ensures FileUrls.GetFileUrl(base, Some(x)) == Some(base + "/" + (FileUrls.FilesPrefix + x))
    ensures ServeFile(x, None).Sent?
  {
    FileUrls.NotAbsolute(x);
    assert !Text.StartsWith(x, "/") && !Text.StartsWith(x, FileUrls.FilesPrefix) by {
      assert x[0] == 'r';
    }
    FileUrls.SameUrlForms(base, x);
    ServedFolders(x, None);
  }
}
