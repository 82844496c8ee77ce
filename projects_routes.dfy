/** The project routes of the backend: GET, POST, PUT and DELETE on
    `/api/projects/:id` and `/api/projects`, and the paginated listing,
    over the project collection held as a map from project id to stored
    document. Requests reach POST and PUT through the `validateProject`
    middleware; a document the schema rejects, and a duplicate id, are
    answered with a 500. */
module ProjectRoutes {
  import opened Wrappers
  import opened JsText
  import opened JsNumber
  import opened JsValues
  import opened Model
  import opened ProjectSchema
  import Validation

  /** The fields of a request body the routes read, each possibly absent. */
  datatype ProjectBody = ProjectBody(
    name: Option<string>,
    files: Option<seq<FileInput>>,
    settings: Option<SettingsInput>,
    activeFileId: IdField)

  /** `activeFileId` in a body: left out, sent as `null`, or a string. Only
      a left-out field is `undefined`; `null` is stored as it is. */
  datatype IdField = Omitted | NullId | GivenId(id: string)

  /** The JSON answers, with their status codes. */
  datatype Reply =
    | Found(project: Project)                        // 200, `{ success: true, project }`
    | Created(projectId: string, project: Project)   // 201
    | Deleted(message: string)                       // 200
    | Page(total: nat, limit: Option<int>, offset: Option<int>, hasMore: bool)
    | Failure(status: nat, message: string)

  const IdRequired := "Project ID is required"
  const NotFound := "Project not found"
  const InternalError := "Internal server error"
  const DeletedMessage := "Project deleted successfully"
  const UntitledName := "Untitled Project"

  // ---- The body as the middleware sees it ----

  function StrOrUndefined(o: Option<string>): JsValue {
    if o.Some? then Str(o.value) else Undefined
  }

  function BoolOrUndefined(o: Option<bool>): JsValue {
    if o.Some? then Bool(o.value) else Undefined
  }

  function NumOrUndefined(o: Option<int>): JsValue {
    if o.Some? then Num(o.value as real) else Undefined
  }

  /** An object holding only the defined fields: parsed JSON has no
      `undefined` values. */
  function ObjectOf(fields: map<string, JsValue>): JsValue {
    Obj(map k | k in fields && fields[k] != Undefined :: fields[k])
  }

  lemma {:induction false} GetObjectOf(fields: map<string, JsValue>, k: string)
    ensures Get(ObjectOf(fields), k) == if k in fields then fields[k] else Undefined
  {
  }

  function FileJs(f: FileInput): JsValue {
    ObjectOf(map["id" := StrOrUndefined(f.id), "name" := StrOrUndefined(f.name),
                 "content" := StrOrUndefined(f.content), "type" := StrOrUndefined(f.kind),
                 "path" := StrOrUndefined(f.path), "isOpen" := BoolOrUndefined(f.isOpen),
                 "isActive" := BoolOrUndefined(f.isActive)])
  }

  function SettingsJs(s: SettingsInput): JsValue {
    ObjectOf(map["theme" := StrOrUndefined(s.theme), "autosave" := BoolOrUndefined(s.autosave),
                 "fontSize" := NumOrUndefined(s.fontSize)])
  }

  function FilesJs(fs: seq<FileInput>): JsValue {
    Arr(seq(|fs|, i requires 0 <= i < |fs| => FileJs(fs[i])))
  }

  function IdJs(f: IdField): JsValue {
    match f
    case Omitted => Undefined
    case NullId => Null
    case GivenId(id) => Str(id)
  }

  function BodyJs(b: ProjectBody): JsValue {
    ObjectOf(map["name" := StrOrUndefined(b.name),
                 "files" := if b.files.Some? then FilesJs(b.files.value) else Undefined,
                 "settings" := if b.settings.Some? then SettingsJs(b.settings.value) else Undefined,
                 "activeFileId" := IdJs(b.activeFileId)])
  }

  /** What `validateProject` answers for a body. */
  function Screen(b: ProjectBody): Validation.Verdict {
    Validation.ValidateProject(BodyJs(b))
  }

  /** A file type the middleware lets through: absent, empty (falsy), or one
      of the four kinds. */
  predicate KindPasses(kind: Option<string>) {
    kind.None? || kind.value == [] || kind.value in {"component", "style", "config", "other"}
  }

  predicate FilePasses(f: FileInput) {
    Present(f.id) && Present(f.name) && Present(f.path) && KindPasses(f.kind)
  }

  predicate SettingsPass(s: SettingsInput) {
    && (s.theme.None? || s.theme.value == [] || s.theme.value in {"light", "dark"})
    && (s.fontSize.None? || 10 <= s.fontSize.value <= 24)
  }

  /** The bodies `validateProject` passes on. */
  predicate BodyPasses(b: ProjectBody) {
    && (b.name.None? || (!IsBlank(b.name.value) && Utf16Length(b.name.value) <= 100))
    && (b.files.None? || forall i :: 0 <= i < |b.files.value| ==> FilePasses(b.files.value[i]))
    && (b.settings.None? || SettingsPass(b.settings.value))
  }

  lemma {:induction false} FileJsOk(f: FileInput)
    ensures Validation.FileOk(FileJs(f)) <==> FilePasses(f)
  {
    var m := map["id" := StrOrUndefined(f.id), "name" := StrOrUndefined(f.name),
                 "content" := StrOrUndefined(f.content), "type" := StrOrUndefined(f.kind),
                 "path" := StrOrUndefined(f.path), "isOpen" := BoolOrUndefined(f.isOpen),
                 "isActive" := BoolOrUndefined(f.isActive)];
    GetObjectOf(m, "id");
    GetObjectOf(m, "name");
    GetObjectOf(m, "path");
    GetObjectOf(m, "type");
    GetObjectOf(m, "content");
  }

  lemma {:induction false} SettingsJsOk(s: SettingsInput)
    ensures Validation.SettingsOk(SettingsJs(s)) <==> SettingsPass(s)
  {
    var m := map["theme" := StrOrUndefined(s.theme), "autosave" := BoolOrUndefined(s.autosave),
                 "fontSize" := NumOrUndefined(s.fontSize)];
    GetObjectOf(m, "theme");
    GetObjectOf(m, "autosave");
    GetObjectOf(m, "fontSize");
  }

  /** A file array passes exactly when every file does, and never makes
      the middleware throw. */
  lemma {:induction false} FilesJsScreened(fs: seq<FileInput>)
    ensures Validation.FilesOk(FilesJs(fs)) <==> forall i :: 0 <= i < |fs| ==> FilePasses(fs[i])
    ensures Validation.CheckFiles(FilesJs(fs)) != Validation.Crash
  {
    var items := FilesJs(fs).items;
    forall i | 0 <= i < |fs| ensures Validation.FileOk(items[i]) <==> FilePasses(fs[i]) {
      FileJsOk(fs[i]);
    }
    forall i | 0 <= i < |fs| ensures Validation.CheckFile(items[i]) != Validation.Crash {
      Validation.CheckFileSpec(items[i]);
    }
  }

  /** The middleware passes a body on exactly when its name is absent or a
      non-blank string of at most 100 UTF-16 units, every file has an id,
      name and path and an empty or known type, and the settings have an
      empty or known theme and a font size in [10, 24]. A body of this shape
      never makes the middleware throw. */
  lemma {:induction false} ScreenSpec(b: ProjectBody)
    ensures Screen(b) == Validation.CallNext <==> BodyPasses(b)
    ensures !Screen(b).ServerError?
  {
    var body := BodyJs(b);
    BodyFields(b);
    Validation.ValidateProjectAccepts(body);
    Validation.CheckNameSpec(Get(body, "name"));
    if b.files.Some? {
      FilesJsScreened(b.files.value);
    }
    if b.settings.Some? {
      SettingsJsOk(b.settings.value);
    }
    ScreenNeverCrashes(b);
  }

  /** The three fields the middleware reads, as the body carries them. */
  lemma {:induction false} BodyFields(b: ProjectBody)
    ensures Get(BodyJs(b), "name") == StrOrUndefined(b.name)
    ensures Get(BodyJs(b), "files") == if b.files.Some? then FilesJs(b.files.value) else Undefined
    ensures Get(BodyJs(b), "settings") == if b.settings.Some? then SettingsJs(b.settings.value) else Undefined
  {
    var m := map["name" := StrOrUndefined(b.name),
                 "files" := if b.files.Some? then FilesJs(b.files.value) else Undefined,
                 "settings" := if b.settings.Some? then SettingsJs(b.settings.value) else Undefined,
                 "activeFileId" := IdJs(b.activeFileId)];
    GetObjectOf(m, "name");
    GetObjectOf(m, "files");
    GetObjectOf(m, "settings");
  }

  lemma {:induction false} ScreenNeverCrashes(b: ProjectBody)
    ensures !Screen(b).ServerError?
  {
    var body := BodyJs(b);
    BodyFields(b);
    Validation.CheckNameSpec(Get(body, "name"));
    if b.files.Some? {
      FilesJsScreened(b.files.value);
    }
    assert Validation.CheckSettings(Get(body, "settings")) != Validation.Crash;
  }

  // ---- POST ----

  /** The seed files of a new project when the body supplies none. */
  function SeedFiles(appJs: string, appCss: string): seq<FileInput> {
    [FileInput(Some("app-js"), Some("App.js"), Some(appJs), Some("component"), Some("/App.js"), Some(true), Some(true)),
     FileInput(Some("app-css"), Some("App.css"), Some(appCss), Some("style"), Some("/App.css"), Some(false), Some(false))]
  }

  /** `files && files.length > 0 ? files : [...]`. */
  function InitialFiles(files: Option<seq<FileInput>>, seeds: seq<FileInput>): seq<FileInput> {
    if files.Some? && files.value != [] then files.value else seeds
  }

  /** `name || 'Untitled Project'`. */
  function CreateName(name: Option<string>): string {
    if name.Some? && name.value != [] then name.value else UntitledName
  }

  /** The index of the first file whose `isActive` is true. */
  function FirstActive(files: seq<FileInput>): (r: Option<nat>)
    ensures r.Some? ==> r.value < |files| && files[r.value].isActive == Some(true)
                        && forall j :: 0 <= j < r.value ==> files[j].isActive != Some(true)
    ensures r.None? ==> forall j :: 0 <= j < |files| ==> files[j].isActive != Some(true)
  {
    if files == [] then None
    else if files[0].isActive == Some(true) then Some(0)
    else
      var r := FirstActive(files[1..]);
      assert forall j :: 1 <= j < |files| ==> files[j] == files[1..][j - 1];
      if r.None? then None else Some(r.value + 1)
  }

  /** `files.find(f => f.isActive)?.id || files[0]?.id`: an empty or missing
      id on the active file falls through to the first file's id. */
  function CreateActiveId(files: seq<FileInput>): Option<string> {
    var a := FirstActive(files);
    var found := if a.Some? then files[a.value].id else None;
    if found.Some? && found.value != [] then found
    else if files != [] then files[0].id
    else None
  }

  /** `{ theme: 'light', autosave: true, fontSize: 14, ...settings }`. */
  function MergeSettings(s: Option<SettingsInput>): SettingsInput {
    var given := OrElse(s, SettingsInput(None, None, None));
    SettingsInput(if given.theme.Some? then given.theme else Some("light"),
                  if given.autosave.Some? then given.autosave else Some(true),
                  if given.fontSize.Some? then given.fontSize else Some(14))
  }

  /** The document `new Project({...})` builds and `save` stores. */
  function NewDocument(b: ProjectBody, seeds: seq<FileInput>, id: string, now: int): Outcome<Project> {
    var files := InitialFiles(b.files, seeds);
    CastProject(id, Some(CreateName(b.name)), files, CreateActiveId(files), MergeSettings(b.settings), now)
  }

  /** The active id is that of the first active file when it has one, and
      otherwise the first file's id; with no active file it is the first
      file's id. */
  lemma {:induction false} CreateActiveIdSpec(files: seq<FileInput>)
    ensures (forall j :: 0 <= j < |files| ==> files[j].isActive != Some(true)) ==>
              CreateActiveId(files) == (if files == [] then None else files[0].id)
    ensures forall i :: 0 <= i < |files| && files[i].isActive == Some(true) && Present(files[i].id)
                        && (forall j :: 0 <= j < i ==> files[j].isActive != Some(true))
                        ==> CreateActiveId(files) == files[i].id
  {
    var a := FirstActive(files);
    forall i | 0 <= i < |files| && files[i].isActive == Some(true) && Present(files[i].id)
               && (forall j :: 0 <= j < i ==> files[j].isActive != Some(true))
      ensures CreateActiveId(files) == files[i].id
    {
      assert a.Some? && files[a.value].isActive == Some(true);
    }
  }

  /** Spreading the given settings over the route's defaults gives the same
      stored settings as the schema's own defaults would: the merge only
      restates them. */
  lemma {:induction false} MergeSettingsSpec(s: Option<SettingsInput>)
    ensures CastSettings(MergeSettings(s)) == CastSettings(OrElse(s, SettingsInput(None, None, None)))
    ensures s.None? ==> CastSettings(MergeSettings(s)) == Valid(DefaultSettings)
  {
  }

  /** The seed files cast, and App.js is the active one. */
  lemma {:induction false} SeedFilesSpec(appJs: string, appCss: string)
    ensures forall i :: 0 <= i < |SeedFiles(appJs, appCss)| ==> FileAcceptable(SeedFiles(appJs, appCss)[i])
    ensures CreateActiveId(SeedFiles(appJs, appCss)) == Some("app-js")
  {
    var s := SeedFiles(appJs, appCss);
    assert FirstActive(s) == Some(0);
  }

  /** The stored document of a successful POST: the supplied files when
      there are any, else the seeds; the trimmed name or 'Untitled Project';
      the merged settings; both dates now. */
  lemma {:induction false} NewDocumentSpec(b: ProjectBody, seeds: seq<FileInput>, id: string, now: int)
    ensures NewDocument(b, seeds, id, now).Valid? ==>
              var p := NewDocument(b, seeds, id, now).value;
              var files := if b.files.Some? && b.files.value != [] then b.files.value else seeds;
              && WellFormed(p) && p.id == id && p.createdAt == now && p.updatedAt == now
              && p.name == Trim(if b.name.Some? && b.name.value != [] then b.name.value else UntitledName)
              && |p.files| == |files|
              && (forall i :: 0 <= i < |files| ==> Valid(p.files[i]) == CastFile(files[i]))
              && p.activeFileId == CreateActiveId(files)
              && Valid(p.settings) == CastSettings(OrElse(b.settings, SettingsInput(None, None, None)))
  {
    var files := InitialFiles(b.files, seeds);
    CastProjectSpec(id, Some(CreateName(b.name)), files, CreateActiveId(files), MergeSettings(b.settings), now);
    CastFilesSpec(files);
    MergeSettingsSpec(b.settings);
  }

  /** No empty string stands where the schema expects one of its
      enumerated values. */
  predicate NoEmptyEnums(b: ProjectBody) {
    && (b.files.None? || forall i :: 0 <= i < |b.files.value| ==> b.files.value[i].kind != Some(""))
    && (b.settings.None? || b.settings.value.theme != Some(""))
  }

  /** The name a POST stores always casts once the middleware has passed
      the body: the middleware bounds the untrimmed name, which bounds the
      trimmed one too. */
  lemma {:induction false} CreateNameCasts(name: Option<string>)
    requires name.None? || (!IsBlank(name.value) && Utf16Length(name.value) <= 100)
    ensures CastName(Some(CreateName(name))).Valid?
  {
    if name.Some? {
      assert name.value != [];
      CastNameSpec(name);
      TrimUtf16Shorter(name.value);
    } else {
      UntitledNameCasts();
    }
  }

  lemma {:induction false} UntitledNameCasts()
    ensures CastName(Some(UntitledName)).Valid?
  {
    var n := UntitledName;
    assert !IsSpace(n[0]);
    CastNameSpec(Some(n));
    TrimUtf16Shorter(n);
  }

  lemma {:induction false} PassedFilesCast(b: ProjectBody, seeds: seq<FileInput>)
    requires b.files.None? || forall i :: 0 <= i < |b.files.value| ==> FilePasses(b.files.value[i])
    requires NoEmptyEnums(b)
    requires forall i :: 0 <= i < |seeds| ==> FileAcceptable(seeds[i])
    ensures CastFiles(InitialFiles(b.files, seeds)).Valid?
  {
    var files := InitialFiles(b.files, seeds);
    forall i | 0 <= i < |files| ensures FileAcceptable(files[i]) {
      if b.files.Some? && b.files.value != [] {
        assert FilePasses(b.files.value[i]) && b.files.value[i].kind != Some("");
      }
    }
    CastFilesSpec(files);
  }

  /** Every body the middleware passes is stored, unless it carries an
      empty type or theme. */
  lemma {:induction false} PassedBodyIsStored(b: ProjectBody, seeds: seq<FileInput>, id: string, now: int)
    requires Screen(b) == Validation.CallNext && NoEmptyEnums(b)
    requires forall i :: 0 <= i < |seeds| ==> FileAcceptable(seeds[i])
    requires id != []
    ensures NewDocument(b, seeds, id, now).Valid?
  {
    ScreenSpec(b);
    CreateNameCasts(b.name);
    PassedFilesCast(b, seeds);
    var settings := MergeSettings(b.settings);
    CastSettingsSpec(settings);
    var files := InitialFiles(b.files, seeds);
    CastProjectSpec(id, Some(CreateName(b.name)), files, CreateActiveId(files), settings, now);
  }

  /** A stored document is well formed and carries the generated id. */
  lemma {:induction false} NewDocumentWellFormed(b: ProjectBody, seeds: seq<FileInput>, id: string, now: int)
    ensures NewDocument(b, seeds, id, now).Valid? ==>
              WellFormed(NewDocument(b, seeds, id, now).value) && NewDocument(b, seeds, id, now).value.id == id
  {
    var files := InitialFiles(b.files, seeds);
    CastProjectSpec(id, Some(CreateName(b.name)), files, CreateActiveId(files), MergeSettings(b.settings), now);
  }

  /** A file whose `type` is the empty string passes the middleware (an
      empty type is falsy) but not the schema's enumeration, so the POST
      ends in a 500 instead of a 400. */
  lemma {:induction false} EmptyTypePassesButIsNotStored(f: FileInput, b: ProjectBody, seeds: seq<FileInput>, id: string, now: int)
    requires f == FileInput(Some("a"), Some("a.js"), None, Some(""), Some("/a.js"), None, None)
    requires b == ProjectBody(None, Some([f]), None, Omitted)
    ensures Screen(b) == Validation.CallNext
    ensures NewDocument(b, seeds, id, now).Invalid?
  {
    ScreenSpec(b);
    CastFilesSpec([f]);
    CastFileSpec(f);
  }

  // ---- PUT ----

  /** The cast `updateData`: only the defined fields are set. */
  datatype Changes = Changes(
    name: Option<string>,
    files: Option<seq<ProjectFile>>,
    settings: Option<Settings>,
    activeFileId: IdField)

  /** The update validators and casts run on the defined fields only; the
      settings object is cast as a whole, so its missing keys take the
      schema defaults. */
  function CastChanges(b: ProjectBody): Outcome<Changes> {
    var name := if b.name.Some? then CastName(b.name) else Valid([]);
    var files := if b.files.Some? then CastFiles(b.files.value) else Valid([]);
    var settings := if b.settings.Some? then CastSettings(b.settings.value) else Valid(DefaultSettings);
    if name.Invalid? then Invalid(name.error)
    else if files.Invalid? then Invalid(files.error)
    else if settings.Invalid? then Invalid(settings.error)
    else Valid(Changes(if b.name.Some? then Some(name.value) else None,
                       if b.files.Some? then Some(files.value) else None,
                       if b.settings.Some? then Some(settings.value) else None,
                       b.activeFileId))
  }

  function ApplyChanges(p: Project, c: Changes, now: int): Project {
    p.(name := OrElse(c.name, p.name),
       files := OrElse(c.files, p.files),
       settings := OrElse(c.settings, p.settings),
       activeFileId := match c.activeFileId
                       case Omitted => p.activeFileId
                       case NullId => None
                       case GivenId(id) => Some(id),
       updatedAt := now)
  }

  /** An update changes exactly the supplied fields, replaces the settings
      as a whole, keeps the id and the creation date, stamps `updatedAt`,
      and keeps the document well formed. */
  lemma {:induction false} ApplyChangesSpec(p: Project, b: ProjectBody, now: int)
    requires WellFormed(p) && CastChanges(b).Valid?
    ensures var q := ApplyChanges(p, CastChanges(b).value, now);
            && WellFormed(q) && q.id == p.id && q.createdAt == p.createdAt && q.updatedAt == now
            && (b.name.None? ==> q.name == p.name)
            && (b.name.Some? ==> q.name == Trim(b.name.value))
            && (b.files.None? ==> q.files == p.files)
            && (b.files.Some? ==> Valid(q.files) == CastFiles(b.files.value))
            && (b.settings.None? ==> q.settings == p.settings)
            && (b.settings.Some? ==> Valid(q.settings) == CastSettings(b.settings.value))
            && (b.activeFileId.Omitted? ==> q.activeFileId == p.activeFileId)
            && (b.activeFileId.NullId? ==> q.activeFileId.None?)
            && (b.activeFileId.GivenId? ==> q.activeFileId == Some(b.activeFileId.id))
  {
    var c := CastChanges(b).value;
    var q := ApplyChanges(p, c, now);
    if b.name.Some? {
      CastNameSpec(b.name);
    }
    if b.files.Some? {
      CastFilesSpec(b.files.value);
      forall i | 0 <= i < |q.files| ensures q.files[i].id != [] && q.files[i].name != [] && q.files[i].path != [] {
        CastFileSpec(b.files.value[i]);
      }
    }
    if b.settings.Some? {
      CastSettingsSpec(b.settings.value);
    }
  }

  /** A PUT whose only field is `activeFileId: null` passes the middleware
      and clears the stored active file, keeping everything else but the
      update time. */
  lemma {:induction false} NullActiveIdClears(p: Project, now: int)
    requires WellFormed(p)
    ensures Screen(ProjectBody(None, None, None, NullId)).CallNext?
    ensures CastChanges(ProjectBody(None, None, None, NullId)).Valid?
    ensures ApplyChanges(p, CastChanges(ProjectBody(None, None, None, NullId)).value, now)
              == p.(activeFileId := None, updatedAt := now)
  {
    ScreenSpec(ProjectBody(None, None, None, NullId));
  }

  /** Settings sent without a theme reset a dark theme to light. */
  lemma {:induction false} PartialSettingsResetTheme(p: Project, b: ProjectBody, now: int)
    requires p.settings.theme == Dark
    requires b == ProjectBody(None, None, Some(SettingsInput(None, None, Some(20))), Omitted)
    ensures CastChanges(b).Valid?
    ensures ApplyChanges(p, CastChanges(b).value, now).settings == Settings(Light, true, 20)
  {
  }

  /** A parsed offset the database refuses as a `skip` value. */
  predicate SkipRefused(offset: Option<int>) {
    offset.Some? && offset.value < 0
  }

  /** `hasMore: parseInt(offset) + parseInt(limit) < total`; a `NaN` makes
      the comparison false. */
  function HasMore(limit: Option<int>, offset: Option<int>, total: nat): bool {
    limit.Some? && offset.Some? && offset.value + limit.value < total
  }

  /** With no query, the page is the first ten documents, and more follow
      exactly when there are over ten; `hasMore` always means documents lie
      past the page. */
  lemma {:induction false} ListDefaults(total: nat)
    ensures HasMore(ParseInt("10"), ParseInt("0"), total) <==> total > 10
    ensures forall l: int, o: int :: HasMore(Some(l), Some(o), total) ==> o + l < total
  {
    ParseIntDefaults();
  }

  /** Storing a well-formed document under its own id keeps every
      document stored under its id and well formed. */
  lemma {:induction false} StoreKeepsInvariant(projects: map<string, Project>, id: string, doc: Project)
    requires forall k :: k in projects ==> projects[k].id == k && WellFormed(projects[k])
    requires doc.id == id && WellFormed(doc)
    ensures var m := projects[id := doc];
            forall k :: k in m ==> m[k].id == k && WellFormed(m[k])
  {
  }

  /** The project collection. */
  class ProjectCollection {
    var projects: map<string, Project>
    const seeds: seq<FileInput>

    /** Every document is stored under its own id and is well formed; the
        seed files cast. */
    predicate Invariant()
      reads this
    {
      && (forall id :: id in projects ==> projects[id].id == id && WellFormed(projects[id]))
      && (forall i :: 0 <= i < |seeds| ==> FileAcceptable(seeds[i]))
    }

    constructor ()
      ensures Invariant()
      ensures projects == map[]
      ensures seeds == SeedFiles(SeedAppJs, SeedAppCss)
    {
      projects := map[];
      seeds := SeedFiles(SeedAppJs, SeedAppCss);
      SeedFilesSpec(SeedAppJs, SeedAppCss);
    }

    /** GET /api/projects/:id. */
    method Show(id: string) returns (reply: Reply)
      ensures id == [] ==> reply == Failure(400, IdRequired)
      ensures id != [] && id in projects ==> reply == Found(projects[id])
      ensures id != [] && id !in projects ==> reply == Failure(404, NotFound)
    {
      if id == [] {
        return Failure(400, IdRequired);
      }
      if id !in projects {
        return Failure(404, NotFound);
      }
      reply := Found(projects[id]);
    }

    /** POST /api/projects, with `freshId` the generated UUID. */
    method Create(body: ProjectBody, freshId: string, now: int) returns (reply: Reply)
      requires Invariant()
      modifies this
      ensures Invariant()
      ensures Screen(body).BadRequest? ==>
                reply == Failure(400, Screen(body).message) && projects == old(projects)
      ensures Screen(body).ServerError? ==> reply == Failure(500, InternalError) && projects == old(projects)
      ensures Screen(body).CallNext? ==>
                var doc := NewDocument(body, seeds, freshId, now);
                if doc.Valid? && freshId !in old(projects) then
                  reply == Created(freshId, doc.value) && projects == old(projects)[freshId := doc.value]
                else
                  reply == Failure(500, InternalError) && projects == old(projects)
    {
      var verdict := Screen(body);
      if verdict.BadRequest? {
        return Failure(400, verdict.message);
      }
      if verdict.ServerError? {
        return Failure(500, InternalError);
      }
      var doc := NewDocument(body, seeds, freshId, now);
      if doc.Invalid? || freshId in projects {
        return Failure(500, InternalError);
      }
      NewDocumentWellFormed(body, seeds, freshId, now);
      StoreKeepsInvariant(projects, freshId, doc.value);
      projects := projects[freshId := doc.value];
      reply := Created(freshId, doc.value);
    }

    /** PUT /api/projects/:id. The update is cast and validated before the
        document is looked up. */
    method Update(id: string, body: ProjectBody, now: int) returns (reply: Reply)
      requires Invariant()
      modifies this
      ensures Invariant()
      ensures Screen(body).BadRequest? ==>
                reply == Failure(400, Screen(body).message) && projects == old(projects)
      ensures Screen(body).ServerError? ==> reply == Failure(500, InternalError) && projects == old(projects)
      ensures Screen(body).CallNext? && id == [] ==> reply == Failure(400, IdRequired) && projects == old(projects)
      ensures Screen(body).CallNext? && id != [] && CastChanges(body).Invalid? ==>
                reply == Failure(500, InternalError) && projects == old(projects)
      ensures Screen(body).CallNext? && id != [] && CastChanges(body).Valid? && id !in old(projects) ==>
                reply == Failure(404, NotFound) && projects == old(projects)
      ensures Screen(body).CallNext? && id != [] && CastChanges(body).Valid? && id in old(projects) ==>
                var q := ApplyChanges(old(projects)[id], CastChanges(body).value, now);
                reply == Found(q) && projects == old(projects)[id := q]
    {
      var verdict := Screen(body);
      if verdict.BadRequest? {
        return Failure(400, verdict.message);
      }
      if verdict.ServerError? {
        return Failure(500, InternalError);
      }
      if id == [] {
        return Failure(400, IdRequired);
      }
      var changes := CastChanges(body);
      if changes.Invalid? {
        return Failure(500, InternalError);
      }
      if id !in projects {
        return Failure(404, NotFound);
      }
      var q := ApplyChanges(projects[id], changes.value, now);
      ApplyChangesSpec(projects[id], body, now);
      projects := projects[id := q];
      reply := Found(q);
    }

    /** DELETE /api/projects/:id. */
    method Remove(id: string) returns (reply: Reply)
      requires Invariant()
      modifies this
      ensures Invariant()
      ensures id == [] ==> reply == Failure(400, IdRequired) && projects == old(projects)
      ensures id != [] && id !in old(projects) ==> reply == Failure(404, NotFound) && projects == old(projects)
      ensures id != [] && id in old(projects) ==>
                reply == Deleted(DeletedMessage) && projects == old(projects) - {id}
    {
      if id == [] {
        return Failure(400, IdRequired);
      }
      if id !in projects {
        return Failure(404, NotFound);
      }
      projects := projects - {id};
      reply := Deleted(DeletedMessage);
    }

    /** GET /api/projects: the pagination block of the answer, with the
        query's `limit` and `offset` strings (10 and 0 when absent). A
        negative offset reaches the database as a negative `skip`, which
        the database refuses, and the route answers 500. */
    method List(limit: Option<string>, offset: Option<string>) returns (reply: Reply)
      ensures SkipRefused(ParseInt(OrElse(offset, "0"))) ==> reply == Failure(500, InternalError)
      ensures !SkipRefused(ParseInt(OrElse(offset, "0"))) ==>
                && reply.Page? && reply.total == |projects|
                && reply.limit == ParseInt(OrElse(limit, "10")) && reply.offset == ParseInt(OrElse(offset, "0"))
                && (reply.hasMore <==> reply.limit.Some? && reply.offset.Some?
                                       && reply.offset.value + reply.limit.value < |projects|)
    {
      var l := ParseInt(OrElse(limit, "10"));
      var o := ParseInt(OrElse(offset, "0"));
      if SkipRefused(o) {
        return Failure(500, InternalError);
      }
      reply := Page(|projects|, l, o, HasMore(l, o, |projects|));
    }
  }

  /** A project removed after it was created is gone again, and the rest of
      the collection is as before. */
  lemma {:induction false} CreateThenRemove(before: map<string, Project>, id: string, p: Project)
    requires id !in before
    ensures before[id := p] - {id} == before
  {
  }


  // ---- The seed texts ----

  const SeedAppJs: string :=
    "import React from 'react';\n" +
    "import './App.css';\n" +
    "\n" +
    "function App() {\n" +
    "  return (\n" +
    "    <div className=\"App\">\n" +
    "      <header className=\"App-header\">\n" +
    "        <h1>Welcome to CipherStudio!</h1>\n" +
    "        <p>Start editing your React components here.</p>\n" +
    "        <button \n" +
    "          onClick={() => alert('Hello from CipherStudio!')}\n" +
    "          style={{\n" +
    "            padding: '10px 20px',\n" +
    "            fontSize: '16px',\n" +
    "            backgroundColor: '#007bff',\n" +
    "            color: 'white',\n" +
    "            border: 'none',\n" +
    "            borderRadius: '5px',\n" +
    "            cursor: 'pointer'\n" +
    "          }}\n" +
    "        >\n" +
    "          Click me!\n" +
    "        </button>\n" +
    "      </header>\n" +
    "    </div>\n" +
    "  );\n" +
    "}\n" +
    "\n" +
    "export default App;"

  const SeedAppCss: string :=
    ".App {\n" +
    "  text-align: center;\n" +
    "}\n" +
    "\n" +
    ".App-header {\n" +
    "  background-color: #282c34;\n" +
    "  padding: 20px;\n" +
    "  color: white;\n" +
    "  min-height: 100vh;\n" +
    "  display: flex;\n" +
    "  flex-direction: column;\n" +
    "  align-items: center;\n" +
    "  justify-content: center;\n" +
    "  font-size: calc(10px + 2vmin);\n" +
    "}\n" +
    "\n" +
    ".App-header h1 {\n" +
    "  margin-bottom: 20px;\n" +
    "  color: #61dafb;\n" +
    "}\n" +
    "\n" +
    ".App-header p {\n" +
    "  margin-bottom: 30px;\n" +
    "  font-size: 18px;\n" +
    "}\n" +
    "\n" +
    "button:hover {\n" +
    "  background-color: #0056b3 !important;\n" +
    "  transform: translateY(-2px);\n" +
    "  transition: all 0.2s ease;\n" +
    "}"
}
