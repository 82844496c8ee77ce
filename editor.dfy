/** The code editor pane: the file it shows (the first file whose id is the
    active one), the language it highlights by the name's extension, the
    theme name and font size it passes to the editor, and the edit handler
    that writes the new text back to the store. */
module Editor {
  import opened Wrappers
  import opened JsText
  import opened Model
  import opened ProjectStore
  import Sidebar

  /** The languages the editor can be put in. */
  const Languages: set<string> := {"javascript", "typescript", "css", "html", "json", "markdown"}

  /** The switch on a lower-cased extension; anything unknown is
      JavaScript. */
  function ExtensionLanguage(ext: string): (r: string)
    ensures r in Languages
  {
    if ext == "js" || ext == "jsx" then "javascript"
    else if ext == "ts" || ext == "tsx" then "typescript"
    else if ext == "css" then "css"
    else if ext == "html" then "html"
    else if ext == "json" then "json"
    else if ext == "md" then "markdown"
    else "javascript"
  }

  /** `getLanguage`: the text after the last dot, lower-cased, chooses the
      language. A name without a dot is its own extension. */
  function LanguageOf(fileName: string): string {
    ExtensionLanguage(ToLower(LastSegment(fileName, '.')))
  }

  /** The language of `stem.ext` depends on `ext` alone, whatever the stem
      (dots in it included). */
  lemma {:induction false} LanguageOfSpec(stem: string, ext: string)
    requires '.' !in ext
    ensures LanguageOf(stem + "." + ext) == ExtensionLanguage(ToLower(ext))
    ensures LanguageOf(stem + "." + ext) in Languages
  {
    LastSegmentAfter(stem, '.', ext);
  }

  /** A name without a dot is read whole, so `README` is JavaScript but a
      file called `css` is CSS. */
  lemma {:induction false} LanguageOfNoDot(fileName: string)
    requires '.' !in fileName
    ensures LanguageOf(fileName) == ExtensionLanguage(ToLower(fileName))
  {
  }

  /** Extensions are matched without regard to case: any extension selects
      the language of its lower-cased form. */
  lemma {:induction false} LanguageIgnoresCase(stem: string, ext: string)
    requires '.' !in ext
    ensures LanguageOf(stem + "." + ext) == LanguageOf(stem + "." + ToLower(ext))
  {
    var lower := ToLower(ext);
    forall i | 0 <= i < |lower| ensures lower[i] != '.' {
      assert lower[i] == LowerChar(ext[i]);
    }
    LanguageOfSpec(stem, ext);
    LanguageOfSpec(stem, lower);
    ToLowerSpec(ext);
  }

  /** The explorer's extensions are lower-case already. */
  lemma {:induction false} ExtensionIsLower(kind: FileType)
    ensures ToLower(Sidebar.Extension(kind)[1..]) == Sidebar.Extension(kind)[1..]
  {
    var ext := Sidebar.Extension(kind)[1..];
    assert forall i :: 0 <= i < |ext| ==> 'a' <= ext[i] <= 'z' by {
      match kind
      case Component => assert ext == "jsx";
      case Style => assert ext == "css";
      case Config => assert ext == "json";
      case Other => assert ext == "txt";
    }
  }

  /** A name typed without a dot gets the language of its kind's
      extension. */
  lemma {:induction false} NewNameLanguage(typed: string, kind: FileType)
    requires '.' !in typed
    ensures LanguageOf(Sidebar.NewFileName(typed, kind)) == ExtensionLanguage(Sidebar.Extension(kind)[1..])
  {
    var ext := Sidebar.Extension(kind)[1..];
    assert Sidebar.Extension(kind) == "." + ext;
    assert Sidebar.NewFileName(typed, kind) == typed + "." + ext;
    LanguageOfSpec(typed, ext);
    ExtensionIsLower(kind);
  }

  /** A file created in the explorer from a name without a dot opens in
      the language of its kind: components in JavaScript, style sheets in
      CSS, configs in JSON, and other files (`.txt`) fall back to
      JavaScript. */
  lemma {:induction false} NewFileLanguage(typed: string, kind: FileType)
    requires '.' !in typed
    ensures kind == Component ==> LanguageOf(Sidebar.NewFileName(typed, kind)) == "javascript"
    ensures kind == Style ==> LanguageOf(Sidebar.NewFileName(typed, kind)) == "css"
    ensures kind == Config ==> LanguageOf(Sidebar.NewFileName(typed, kind)) == "json"
    ensures kind == Other ==> LanguageOf(Sidebar.NewFileName(typed, kind)) == "javascript"
  {
    NewNameLanguage(typed, kind);
    match kind
    case Component => assert Sidebar.Extension(kind)[1..] == "jsx";
    case Style => assert Sidebar.Extension(kind)[1..] == "css";
    case Config => assert Sidebar.Extension(kind)[1..] == "json";
    case Other => assert Sidebar.Extension(kind)[1..] == "txt";
  }

  /** `files.find(file => file.id === id)`, as the position of the first
      match (`|files|` when there is none). */
  function FindIndex(files: seq<ProjectFile>, id: string): (r: nat)
    ensures r <= |files|
    ensures r < |files| ==> files[r].id == id
    ensures forall j :: 0 <= j < r ==> files[j].id != id
  {
    if files == [] then 0
    else if files[0].id == id then 0
    else
      var r := FindIndex(files[1..], id);
      assert forall j :: 1 <= j < r + 1 ==> files[j] == files[1..][j - 1];
      1 + r
  }

  /** Any position before which no file has the id and at which the id
      (or the end) is found is the one `find` returns. */
  lemma {:induction false} FindIndexUnique(files: seq<ProjectFile>, id: string, k: nat)
    requires k <= |files|
    requires k < |files| ==> files[k].id == id
    requires forall j :: 0 <= j < k ==> files[j].id != id
    ensures FindIndex(files, id) == k
  {
  }

  /** The file the editor shows: none without a project or an active id. */
  function ActiveFile(project: Option<Project>, activeId: Option<string>): (r: Option<ProjectFile>)
    ensures r.Some? ==> project.Some? && activeId.Some? && r.value in project.value.files && r.value.id == activeId.value
    ensures r.None? && project.Some? && activeId.Some? ==>
              forall f :: f in project.value.files ==> f.id != activeId.value
  {
    if project.None? || activeId.None? then None
    else
      var files := project.value.files;
      var k := FindIndex(files, activeId.value);
      if k < |files| then Some(files[k]) else None
  }

  /** The patch `{ content: value }`. */
  function ContentPatch(value: string): (r: FilePatch)
    ensures forall f :: PatchFile(f, r) == f.(content := value)
  {
    NoFileChanges.(content := Some(value))
  }

  /** After an edit the editor shows the same file, now holding the new
      text; the edit touches no file with another id. */
  lemma {:induction false} EditReachesActiveFile(files: seq<ProjectFile>, id: string, value: string)
    ensures var edited := UpdateFiles(files, id, ContentPatch(value));
            var k := FindIndex(files, id);
            && |edited| == |files| && FindIndex(edited, id) == k
            && (k < |files| ==> edited[k] == files[k].(content := value))
            && forall i :: 0 <= i < |files| && files[i].id != id ==> edited[i] == files[i]
  {
    var edited := UpdateFiles(files, id, ContentPatch(value));
    UpdateFilesSpec(files, id, ContentPatch(value));
    var k := FindIndex(files, id);
    FindIndexUnique(edited, id, k);
  }

  /** `handleEditorChange`: with an active file and a defined value, the
      value becomes that file's content; otherwise nothing happens. */
  method EditorChange(store: Store, value: Option<string>, now: int)
    modifies store
    ensures var active := ActiveFile(old(store.currentProject), old(store.editorState.activeFileId));
            active.Some? && value.Some? ==>
              store.currentProject == Some(old(store.currentProject).value.(
                files := UpdateFiles(old(store.currentProject).value.files, active.value.id, ContentPatch(value.value)),
                updatedAt := now))
    ensures ActiveFile(old(store.currentProject), old(store.editorState.activeFileId)).None? || value.None? ==>
              store.currentProject == old(store.currentProject)
    ensures store.editorState == old(store.editorState)
    ensures store.isAuthenticated == old(store.isAuthenticated) && store.user == old(store.user)
    ensures store.users == old(store.users)
  {
    var active := ActiveFile(store.currentProject, store.editorState.activeFileId);
    if active.Some? && value.Some? {
      store.UpdateFile(active.value.id, ContentPatch(value.value), now);
    }
  }

  const DarkThemeName := "cipherstudio-dark"
  const LightThemeName := "cipherstudio-light"

  /** The editor theme: the dark one exactly when the project's theme is
      dark. */
  function ThemeName(project: Option<Project>): (r: string)
    ensures r == DarkThemeName <==> project.Some? && project.value.settings.theme == Dark
    ensures r == LightThemeName <==> !(project.Some? && project.value.settings.theme == Dark)
  {
    if project.Some? && project.value.settings.theme == Dark then DarkThemeName else LightThemeName
  }

  /** The editor theme follows the project's theme and nothing else: two
      projects get the same editor theme exactly when their themes agree,
      and a fresh project or no project at all gets the light one. */
  lemma {:induction false} ThemeNameSpec(p: Project, q: Project)
    ensures ThemeName(Some(p)) == ThemeName(Some(q)) <==> p.settings.theme == q.settings.theme
    ensures ThemeName(None) == LightThemeName
    ensures p.settings == DefaultSettings ==> ThemeName(Some(p)) == LightThemeName
  {
  }

  /** `currentProject?.settings.fontSize || 14`: a missing project or a
      zero size falls back to 14. */
  function FontSize(project: Option<Project>): (r: int)
    ensures r != 0
    ensures project.Some? && project.value.settings.fontSize != 0 ==> r == project.value.settings.fontSize
    ensures project.None? || project.value.settings.fontSize == 0 ==> r == 14
  {
    if project.Some? && project.value.settings.fontSize != 0 then project.value.settings.fontSize else 14
  }

  /** Any size a project can be stored with is shown as it is, and a
      project with the default settings shows 14. */
  lemma {:induction false} FontSizeShown(project: Project)
    ensures 10 <= project.settings.fontSize <= 24 ==> FontSize(Some(project)) == project.settings.fontSize
    ensures project.settings == DefaultSettings ==> FontSize(Some(project)) == 14
    ensures FontSize(None) == 14
  {
  }
}
