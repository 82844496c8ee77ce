/** The project manager panel: saving the current project to the backend
    (update when the server has it, create when it answers 404), loading a
    project by id, exporting to and importing from a JSON file, saving to
    local storage, and the status message with its success or failure
    styling. The server's answers are parameters; the storage write is
    recorded, not performed. */
module ProjectManager {
  import opened Wrappers
  import opened JsText
  import opened JsValues
  import opened Model
  import ProjectStore

  // ---- Messages ----

  const Successfully := "successfully"

  /** Every message the panel sets. */
  datatype Notice =
    | Updated | UpdateFailed | Created | FetchFailed | CreateFailed | CreateError | SaveError
    | Loaded | LoadNotFound | LoadError
    | Exported | InvalidFile | MalformedFiles | Imported
    | SavedLocally

  function Text(n: Notice): string {
    match n
    case Updated => "Project updated " + Successfully + "!"
    case UpdateFailed => "Failed to update project on backend"
    case Created => "Project created on backend and saved " + Successfully + "!"
    case FetchFailed => "Project created but " + "failed to fetch project data"
    case CreateFailed => "Failed to save project to backend"
    case CreateError => "Error saving project to backend"
    case SaveError => "Error saving project"
    case Loaded => "Project loaded " + Successfully + "!"
    case LoadNotFound => "Project not found"
    case LoadError => "Error loading project"
    case Exported => "Project exported " + Successfully + "!"
    case InvalidFile => "Invalid project file"
    case MalformedFiles => "Invalid project file - files malformed"
    case Imported => "Project imported " + Successfully + "!"
    case SavedLocally => LocalSaveText
  }

  const LocalSaveText := "Project saved to local storage!"

  /** The notices that report an operation that went through. */
  predicate Succeeded(n: Notice) {
    n in {Updated, Created, Loaded, Exported, Imported, SavedLocally}
  }

  /** The styling rule as written: green exactly when the message includes
      "successfully". */
  predicate ShownAsSuccess(message: string) {
    Contains(message, Successfully)
  }

  /** The styling rule as evidently intended: the local-save confirmation
      is a success too. */
  predicate ShownAsSuccessFixed(message: string) {
    Contains(message, Successfully) || message == LocalSaveText
  }

  lemma {:induction false} SuccessTextsContainWord(n: Notice)
    requires Succeeded(n) && n != SavedLocally
    ensures ShownAsSuccess(Text(n))
  {
    match n
    case Updated => Contained("Project updated ", Successfully, "!");
    case Created => Contained("Project created on backend and saved ", Successfully, "!");
    case Loaded => Contained("Project loaded ", Successfully, "!");
    case Exported => Contained("Project exported ", Successfully, "!");
    case Imported => Contained("Project imported ", Successfully, "!");
  }

  lemma {:induction false} FailureTextsLackWord(n: Notice)
    requires !Succeeded(n)
    ensures !ShownAsSuccess(Text(n)) && Text(n) != LocalSaveText
  {
    match n
    case FetchFailed => FetchFailedLacksWord();
    case UpdateFailed => UpdateFailuresLackWord(n);
    case CreateFailed => UpdateFailuresLackWord(n);
    case CreateError => SaveErrorsLackWord(n);
    case SaveError => SaveErrorsLackWord(n);
    case LoadNotFound => LoadFailuresLackWord(n);
    case LoadError => LoadFailuresLackWord(n);
    case InvalidFile => ImportFailuresLackWord(n);
    case MalformedFiles => ImportFailuresLackWord(n);
  }

  lemma {:induction false} UpdateFailuresLackWord(n: Notice)
    requires n.UpdateFailed? || n.CreateFailed?
    ensures !ShownAsSuccess(Text(n)) && Text(n) != LocalSaveText
  {
    NoLetterY(Text(n));
  }

  lemma {:induction false} SaveErrorsLackWord(n: Notice)
    requires n.CreateError? || n.SaveError?
    ensures !ShownAsSuccess(Text(n)) && Text(n) != LocalSaveText
  {
    NoLetterY(Text(n));
  }

  lemma {:induction false} LoadFailuresLackWord(n: Notice)
    requires n.LoadNotFound? || n.LoadError?
    ensures !ShownAsSuccess(Text(n)) && Text(n) != LocalSaveText
  {
    NoLetterY(Text(n));
  }

  lemma {:induction false} ImportFailuresLackWord(n: Notice)
    requires n.InvalidFile? || n.MalformedFiles?
    ensures !ShownAsSuccess(Text(n)) && Text(n) != LocalSaveText
  {
    NoLetterY(Text(n));
  }

  lemma {:induction false} FetchFailedLacksWord()
    ensures !ShownAsSuccess(Text(FetchFailed)) && Text(FetchFailed) != LocalSaveText
  {
    var a, b := "Project created but ", "failed to fetch project data";
    assert 'y' !in a && 'y' !in b;
    assert 'y' !in a + b;
    NoLetterY(a + b);
  }

  lemma {:induction false} NoLetterY(message: string)
    requires 'y' !in message
    requires |message| != |LocalSaveText| || message[0] != LocalSaveText[0]
    ensures !ShownAsSuccess(message) && message != LocalSaveText
  {
    assert Successfully[11] == 'y';
    MissingCharNotContained(message, Successfully, 'y');
  }

  /** As written, every message but one is styled by its outcome: the
      local-save confirmation is shown in the failure colours. */
  lemma {:induction false} LocalSaveShownAsFailure(n: Notice)
    ensures n != SavedLocally ==> (ShownAsSuccess(Text(n)) <==> Succeeded(n))
    ensures Succeeded(SavedLocally) && !ShownAsSuccess(Text(SavedLocally))
  {
    if Succeeded(n) && n != SavedLocally {
      SuccessTextsContainWord(n);
    } else if !Succeeded(n) {
      FailureTextsLackWord(n);
    }
    assert Successfully[11] == 'y';
    MissingCharNotContained(LocalSaveText, Successfully, 'y');
  }

  /** With the corrected rule, a message is green exactly when it reports
      success. */
  lemma {:induction false} StylingFixedMatchesOutcome(n: Notice)
    ensures ShownAsSuccessFixed(Text(n)) <==> Succeeded(n)
  {
    if Succeeded(n) && n != SavedLocally {
      SuccessTextsContainWord(n);
    } else if !Succeeded(n) {
      FailureTextsLackWord(n);
    }
  }

  // ---- The server's answers ----

  /** The parsed JSON of a 2xx answer, `null` when the body is empty or not
      JSON. */
  datatype ApiBody = ApiBody(success: bool, project: Option<Project>, projectId: Option<string>)

  /** A request's outcome: a 2xx answer, an `ApiError` carrying the HTTP
      status, or a network failure with no status. */
  datatype ApiResult = Answer(data: Option<ApiBody>) | HttpError(status: int) | NetworkError

  datatype Call =
    | FetchCall(id: string)
    | UpdateCall(id: string, name: string, files: seq<ProjectFile>, settings: Settings, activeFileId: Option<string>)
    | CreateCall(name: string, files: seq<ProjectFile>, settings: Settings)

  /** The requests made, the message set, the project that replaces the
      current one, and whether the current project was written to local
      storage. */
  datatype SaveResult = SaveResult(calls: seq<Call>, notice: Notice, replacement: Option<Project>, stored: bool)

  predicate Is404(r: ApiResult) {
    r.HttpError? && r.status == 404
  }

  /** `data && data.success && data.project`. */
  predicate CarriesProject(r: ApiResult) {
    r.Answer? && r.data.Some? && r.data.value.success && r.data.value.project.Some?
  }

  /** The create branch, after the existence check failed with 404. */
  function CreateBranch(current: Project, create: ApiResult, refetch: ApiResult): SaveResult {
    var createCall := CreateCall(current.name, current.files, current.settings);
    if CarriesProject(create) then SaveResult([createCall], Created, create.data.value.project, true)
    else if create.Answer? && create.data.Some? && create.data.value.success
            && create.data.value.projectId.Some? && create.data.value.projectId.value != [] then
      var calls := [createCall, FetchCall(create.data.value.projectId.value)];
      if CarriesProject(refetch) then SaveResult(calls, Created, refetch.data.value.project, true)
      else if refetch.Answer? then SaveResult(calls, FetchFailed, None, false)
      else SaveResult(calls, CreateError, None, false)
    else if create.Answer? then SaveResult([createCall], CreateFailed, None, false)
    else SaveResult([createCall], CreateError, None, false)
  }

  function After(calls: seq<Call>, r: SaveResult): SaveResult {
    r.(calls := calls + r.calls)
  }

  /** `handleSaveToBackend` for a current project. A 404 from the update
      itself is caught by the same handler as one from the existence check. */
  function SaveFlow(current: Project, get: ApiResult, update: ApiResult, create: ApiResult, refetch: ApiResult): SaveResult {
    var getCall := FetchCall(current.id);
    var updateCall := UpdateCall(current.id, current.name, current.files, current.settings, current.activeFileId);
    if get.Answer? then
      if update.Answer? then
        if update.data.Some? && update.data.value.success then SaveResult([getCall, updateCall], Updated, None, true)
        else SaveResult([getCall, updateCall], UpdateFailed, None, false)
      else if Is404(update) then After([getCall, updateCall], CreateBranch(current, create, refetch))
      else SaveResult([getCall, updateCall], SaveError, None, false)
    else if Is404(get) then After([getCall], CreateBranch(current, create, refetch))
    else SaveResult([getCall], SaveError, None, false)
  }

  predicate Creates(r: SaveResult) {
    exists i :: 0 <= i < |r.calls| && r.calls[i].CreateCall?
  }

  lemma {:induction false} CreateBranchSpec(current: Project, create: ApiResult, refetch: ApiResult)
    ensures var r := CreateBranch(current, create, refetch);
            && r.calls != [] && r.calls[0] == CreateCall(current.name, current.files, current.settings)
            && (forall i :: 1 <= i < |r.calls| ==> r.calls[i].FetchCall?)
            && (r.stored <==> Succeeded(r.notice))
            && (r.replacement.Some? <==> r.notice == Created)
            && (r.replacement.Some? ==>
                  (CarriesProject(create) && r.replacement == create.data.value.project)
                  || (CarriesProject(refetch) && r.replacement == refetch.data.value.project))
  {
  }

  /** The save flow always asks the server for the project first; it
      updates when the server has it, creates exactly when the check or the
      update answers 404, and stops with "Error saving project" on any other
      failure. A success message, a local-storage write, and (for a create)
      the server's copy replacing the current project go together. */
  lemma {:induction false} SaveFlowSpec(current: Project, get: ApiResult, update: ApiResult, create: ApiResult, refetch: ApiResult)
    ensures var r := SaveFlow(current, get, update, create, refetch);
            && r.calls != [] && r.calls[0] == FetchCall(current.id)
            && (get.Answer? ==> |r.calls| >= 2 && r.calls[1].UpdateCall? && r.calls[1].id == current.id)
            && (Creates(r) <==> Is404(get) || (get.Answer? && Is404(update)))
            && (!get.Answer? && !Is404(get) ==> r == SaveResult([FetchCall(current.id)], SaveError, None, false))
            && (r.stored <==> Succeeded(r.notice))
            && (r.replacement.Some? <==> r.notice == Created)
  {
    var r := SaveFlow(current, get, update, create, refetch);
    var b := CreateBranch(current, create, refetch);
    CreateBranchSpec(current, create, refetch);
    if Is404(get) {
      assert r.calls[1] == b.calls[0];
    } else if get.Answer? && Is404(update) {
      assert r.calls[2] == b.calls[0];
    } else {
      assert forall i :: 0 <= i < |r.calls| ==> !r.calls[i].CreateCall?;
    }
  }

  /** A project created on the server is sent without its id, which the
      server assigns; the current project is then replaced by the server's
      copy. */
  lemma {:induction false} CreatedProjectIsServers(current: Project, update: ApiResult, create: ApiResult, refetch: ApiResult)
    ensures var r := SaveFlow(current, HttpError(404), update, create, refetch);
            && |r.calls| >= 2 && r.calls[1] == CreateCall(current.name, current.files, current.settings)
            && (r.replacement.Some? ==>
                  (CarriesProject(create) && r.replacement == create.data.value.project)
                  || (CarriesProject(refetch) && r.replacement == refetch.data.value.project))
  {
    CreateBranchSpec(current, create, refetch);
  }

  // ---- Load, import, export ----

  /** `handleLoadFromBackend` once the id is not blank. A missing project is
      a 404 and so an `ApiError`: it reports "Error loading project". */
  function LoadFlow(result: ApiResult): (Notice, Option<Project>) {
    if CarriesProject(result) then (Loaded, result.data.value.project)
    else if result.Answer? then (LoadNotFound, None)
    else (LoadError, None)
  }

  lemma {:induction false} LoadFlowSpec(result: ApiResult)
    ensures LoadFlow(result).1.Some? <==> LoadFlow(result).0 == Loaded
    ensures LoadFlow(result).1.Some? ==> CarriesProject(result) && LoadFlow(result).1 == result.data.value.project
    ensures Is404(result) ==> LoadFlow(result) == (LoadError, None)
  {
  }

  /** `f && f.id && f.name && f.path && typeof f.content === 'string'`. */
  predicate FileLooksValid(f: JsValue) {
    Truthy(f) && Truthy(Get(f, "id")) && Truthy(Get(f, "name")) && Truthy(Get(f, "path")) && Get(f, "content").Str?
  }

  /** `files.every(...)`. */
  function EveryFileLooksValid(files: seq<JsValue>): (r: bool)
    ensures r <==> forall i :: 0 <= i < |files| ==> FileLooksValid(files[i])
  {
    if files == [] then true
    else
      assert forall i :: 1 <= i < |files| ==> files[i] == files[1..][i - 1];
      FileLooksValid(files[0]) && EveryFileLooksValid(files[1..])
  }

  /** The import check on the parsed file; `None` when `JSON.parse` throws. */
  function ImportCheck(data: Option<JsValue>): Notice {
    if data.None? then InvalidFile
    else
      var d := data.value;
      if !Truthy(d) || !Truthy(Get(d, "id")) || !Truthy(Get(d, "name")) || !Get(d, "files").Arr? then InvalidFile
      else if !EveryFileLooksValid(Get(d, "files").items) then MalformedFiles
      else Imported
  }

  /** An import goes through exactly when the file parses to a value with a
      truthy id and name and a files array whose every element has a truthy
      id, name and path and string content; an empty array passes. */
  lemma {:induction false} ImportCheckSpec(data: Option<JsValue>)
    ensures ImportCheck(data) in {InvalidFile, MalformedFiles, Imported}
    ensures ImportCheck(data) == Imported <==>
              data.Some? && Truthy(data.value) && Truthy(Get(data.value, "id")) && Truthy(Get(data.value, "name"))
              && Get(data.value, "files").Arr?
              && forall i :: 0 <= i < |Get(data.value, "files").items| ==> FileLooksValid(Get(data.value, "files").items[i])
    ensures ImportCheck(Some(Obj(map["id" := Str("p"), "name" := Str("P"), "files" := Arr([])]))) == Imported
  {
    var d := Obj(map["id" := Str("p"), "name" := Str("P"), "files" := Arr([])]);
    assert Get(d, "files") == Arr([]);
  }

  /** `${name.replace(/\s+/g, '_')}.json`. */
  function ExportFileName(name: string): (r: string)
    ensures |r| >= 5 && r[|r| - 5..] == ".json"
  {
    ReplaceSpaceRuns(name, "_") + ".json"
  }

  /** The exported file's name has no white space, keeps a name that has
      none, and is never longer than the name plus the extension. */
  lemma {:induction false} ExportFileNameSpec(name: string)
    ensures !HasSpace(ExportFileName(name)[..|ExportFileName(name)| - 5])
    ensures !HasSpace(name) ==> ExportFileName(name) == name + ".json"
    ensures |ExportFileName(name)| <= |name| + 5
  {
    ReplaceSpaceRunsSpec(name, "_");
    assert ExportFileName(name)[..|ExportFileName(name)| - 5] == ReplaceSpaceRuns(name, "_");
  }

  // ---- The panel ----

  class Manager {
    var showManager: bool
    var loading: bool
    var projectId: string
    var message: string

    constructor ()
      ensures !showManager && !loading && projectId == [] && message == []
    {
      showManager := false;
      loading := false;
      projectId := [];
      message := [];
    }

    /** The message box: hidden when empty, green or red by the styling
        rule as written. */
    function ShowsSuccess(): bool
      reads this
    {
      message != [] && ShownAsSuccess(message)
    }

    method SetProjectId(text: string)
      modifies this
      ensures projectId == text
      ensures showManager == old(showManager) && loading == old(loading) && message == old(message)
    {
      projectId := text;
    }

    method SaveToBackend(store: ProjectStore.Store, get: ApiResult, update: ApiResult, create: ApiResult, refetch: ApiResult)
      returns (calls: seq<Call>, stored: bool)
      modifies this, store
      ensures old(store.currentProject).None? ==>
                calls == [] && !stored && unchanged(this) && unchanged(store)
      ensures old(store.currentProject).Some? ==>
                var r := SaveFlow(old(store.currentProject).value, get, update, create, refetch);
                && calls == r.calls && stored == r.stored
                && message == Text(r.notice) && !loading
                && projectId == old(projectId) && showManager == old(showManager)
                && store.currentProject == (if r.replacement.Some? then r.replacement else old(store.currentProject))
                && (r.replacement.None? ==> store.editorState == old(store.editorState))
                && (r.replacement.Some? ==>
                      store.editorState == DefaultEditorState.(activeFileId := ProjectStore.InitialActiveFile(r.replacement.value),
                                                               openFiles := ProjectStore.OpenIds(r.replacement.value.files)))
                && store.user == old(store.user) && store.users == old(store.users)
                && store.isAuthenticated == old(store.isAuthenticated)
    {
      if store.currentProject.None? {
        return [], false;
      }
      loading := true;
      message := [];
      var r := SaveFlow(store.currentProject.value, get, update, create, refetch);
      if r.replacement.Some? {
        store.SetCurrentProject(r.replacement.value);
      }
      message := Text(r.notice);
      loading := false;
      calls, stored := r.calls, r.stored;
    }

    /** Load by id; `requested` is the id sent, untrimmed. */
    method LoadFromBackend(store: ProjectStore.Store, result: ApiResult) returns (requested: Option<string>)
      modifies this, store
      ensures IsBlank(old(projectId)) ==> requested.None? && unchanged(this) && unchanged(store)
      ensures !IsBlank(old(projectId)) ==>
                var (notice, loaded) := LoadFlow(result);
                && requested == Some(old(projectId))
                && message == Text(notice) && !loading && showManager == old(showManager)
                && projectId == (if loaded.Some? then [] else old(projectId))
                && store.currentProject == (if loaded.Some? then loaded else old(store.currentProject))
                && (loaded.None? ==> store.editorState == old(store.editorState))
                && (loaded.Some? ==>
                      store.editorState == DefaultEditorState.(activeFileId := ProjectStore.InitialActiveFile(loaded.value),
                                                               openFiles := ProjectStore.OpenIds(loaded.value.files)))
                && store.user == old(store.user) && store.users == old(store.users)
                && store.isAuthenticated == old(store.isAuthenticated)
    {
      if IsBlank(projectId) {
        return None;
      }
      requested := Some(projectId);
      loading := true;
      message := [];
      var (notice, loaded) := LoadFlow(result);
      if loaded.Some? {
        store.SetCurrentProject(loaded.value);
        projectId := [];
      }
      message := Text(notice);
      loading := false;
    }

    /** Export; `fileName` is the download's name. */
    method ExportProject(store: ProjectStore.Store) returns (fileName: Option<string>)
      modifies this
      ensures old(store.currentProject).None? ==> fileName.None? && unchanged(this)
      ensures store.currentProject.Some? ==>
                fileName == Some(ExportFileName(store.currentProject.value.name)) && message == Text(Exported)
                && loading == old(loading) && projectId == old(projectId) && showManager == old(showManager)
    {
      if store.currentProject.None? {
        return None;
      }
      fileName := Some(ExportFileName(store.currentProject.value.name));
      message := Text(Exported);
    }

    /** Import; `asProject` is the parsed data read as a project, so its id
        and name are the data's own when these are strings. */
    method ImportProject(store: ProjectStore.Store, data: Option<JsValue>, asProject: Project)
      requires data.Some? && Truthy(data.value) && Get(data.value, "id").Str? ==>
                 asProject.id == Get(data.value, "id").s
      requires data.Some? && Truthy(data.value) && Get(data.value, "name").Str? ==>
                 asProject.name == Get(data.value, "name").s
      modifies this, store
      ensures message == Text(ImportCheck(data))
      ensures loading == old(loading) && projectId == old(projectId) && showManager == old(showManager)
      ensures ImportCheck(data) == Imported ==>
                && store.currentProject == Some(asProject)
                && store.editorState == DefaultEditorState.(activeFileId := ProjectStore.InitialActiveFile(asProject),
                                                            openFiles := ProjectStore.OpenIds(asProject.files))
      ensures ImportCheck(data) != Imported ==> unchanged(store)
      ensures ShowsSuccess() <==> ImportCheck(data) == Imported
      ensures store.user == old(store.user) && store.users == old(store.users)
      ensures store.isAuthenticated == old(store.isAuthenticated)
    {
      var notice := ImportCheck(data);
      if notice == Imported {
        store.SetCurrentProject(asProject);
      }
      message := Text(notice);
      LocalSaveShownAsFailure(notice);
    }

    /** Save locally: the storage write itself is not modelled. */
    method SaveToLocal()
      modifies this
      ensures message == Text(SavedLocally)
      ensures loading == old(loading) && projectId == old(projectId) && showManager == old(showManager)
      ensures !ShowsSuccess()
    {
      message := Text(SavedLocally);
      LocalSaveShownAsFailure(SavedLocally);
    }
  }
}
