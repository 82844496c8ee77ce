/** The stored project document: how the file, settings and project schemas
    fill in defaults and reject values (required strings, enumerations,
    bounds, a trimmed and bounded name), and the pre-save hook that stamps
    `updatedAt`. A rejected document is a validation error, which the
    routes answer with a 500. */
module ProjectSchema {
  import opened Wrappers
  import opened JsText
  import opened Model

  /** A file as a request supplies it: every key may be missing. */
  datatype FileInput = FileInput(
    id: Option<string>,
    name: Option<string>,
    content: Option<string>,
    kind: Option<string>,
    path: Option<string>,
    isOpen: Option<bool>,
    isActive: Option<bool>)

  /** Settings as a request supplies them. Font sizes are whole numbers here. */
  datatype SettingsInput = SettingsInput(theme: Option<string>, autosave: Option<bool>, fontSize: Option<int>)

  /** Why a document does not cast. */
  datatype SchemaError = Required(field: string) | NotInEnum(field: string) | OutOfRange(field: string) | TooLong(field: string)

  datatype Outcome<T> = Valid(value: T) | Invalid(error: SchemaError)

  const MaxNameLength := 100
  const MinFontSize := 10
  const MaxFontSize := 24

  /** A `required` string path: present and not empty. */
  predicate Present(v: Option<string>) {
    v.Some? && v.value != []
  }

  function ParseFileType(s: string): (r: Option<FileType>)
    ensures r.Some? <==> s in {"component", "style", "config", "other"}
  {
    if s == "component" then Some(Component)
    else if s == "style" then Some(Style)
    else if s == "config" then Some(Config)
    else if s == "other" then Some(Other)
    else None
  }

  function ParseTheme(s: string): (r: Option<Theme>)
    ensures r.Some? <==> s in {"light", "dark"}
    ensures r == Some(Light) <==> s == "light"
  {
    if s == "light" then Some(Light) else if s == "dark" then Some(Dark) else None
  }

  /** The file schema: id, name and path required; content '', type
      component, and both flags false by default; type restricted to the
      four kinds. */
  function CastFile(f: FileInput): Outcome<ProjectFile> {
    if !Present(f.id) then Invalid(Required("id"))
    else if !Present(f.name) then Invalid(Required("name"))
    else if !Present(f.path) then Invalid(Required("path"))
    else if f.kind.Some? && ParseFileType(f.kind.value).None? then Invalid(NotInEnum("type"))
    else
      Valid(ProjectFile(f.id.value, f.name.value, OrElse(f.content, ""),
                        if f.kind.Some? then ParseFileType(f.kind.value).value else Component,
                        f.path.value, OrElse(f.isOpen, false), OrElse(f.isActive, false)))
  }

  /** The conditions under which a file casts. */
  predicate FileAcceptable(f: FileInput) {
    Present(f.id) && Present(f.name) && Present(f.path)
    && (f.kind.None? || f.kind.value in {"component", "style", "config", "other"})
  }

  lemma {:induction false} CastFileSpec(f: FileInput)
    ensures CastFile(f).Valid? <==> FileAcceptable(f)
    ensures CastFile(f).Valid? ==>
              var r := CastFile(f).value;
              && Some(r.id) == f.id && Some(r.name) == f.name && Some(r.path) == f.path
              && r.content == (if f.content.Some? then f.content.value else "")
              && (f.kind.None? ==> r.kind == Component)
              && r.isOpen == (f.isOpen == Some(true)) && r.isActive == (f.isActive == Some(true))
  {
  }

  function CastFiles(fs: seq<FileInput>): Outcome<seq<ProjectFile>> {
    if fs == [] then Valid([])
    else
      match CastFile(fs[0])
      case Invalid(e) => Invalid(e)
      case Valid(f) =>
        match CastFiles(fs[1..])
        case Invalid(e) => Invalid(e)
        case Valid(rest) => Valid([f] + rest)
  }

  /** A file array casts exactly when every element does, element by
      element and in order. */
  lemma {:induction false} CastFilesSpec(fs: seq<FileInput>)
    ensures CastFiles(fs).Valid? <==> forall i :: 0 <= i < |fs| ==> FileAcceptable(fs[i])
    ensures CastFiles(fs).Valid? ==>
              |CastFiles(fs).value| == |fs|
              && forall i :: 0 <= i < |fs| ==> Valid(CastFiles(fs).value[i]) == CastFile(fs[i])
  {
    if fs != [] {
      CastFileSpec(fs[0]);
      CastFilesSpec(fs[1..]);
      assert forall i :: 1 <= i < |fs| ==> fs[i] == fs[1..][i - 1];
      if CastFiles(fs).Valid? {
        var r := CastFiles(fs).value;
        assert forall i :: 1 <= i < |fs| ==> r[i] == CastFiles(fs[1..]).value[i - 1];
      }
    }
  }

  /** The settings schema: light, autosave on and 14 by default; theme light
      or dark; font size within [10, 24]. */
  function CastSettings(s: SettingsInput): Outcome<Settings> {
    if s.theme.Some? && ParseTheme(s.theme.value).None? then Invalid(NotInEnum("theme"))
    else if s.fontSize.Some? && !(MinFontSize <= s.fontSize.value <= MaxFontSize) then Invalid(OutOfRange("fontSize"))
    else Valid(Settings(if s.theme.Some? then ParseTheme(s.theme.value).value else Light,
                        OrElse(s.autosave, true), OrElse(s.fontSize, 14)))
  }

  lemma {:induction false} CastSettingsSpec(s: SettingsInput)
    ensures CastSettings(s).Valid? <==>
              (s.theme.None? || s.theme.value in {"light", "dark"})
              && (s.fontSize.None? || MinFontSize <= s.fontSize.value <= MaxFontSize)
    ensures CastSettings(s).Valid? ==>
              var r := CastSettings(s).value;
              && MinFontSize <= r.fontSize <= MaxFontSize
              && (r.theme == Dark <==> s.theme == Some("dark"))
              && r.autosave == (s.autosave != Some(false))
              && (s.fontSize.None? ==> r.fontSize == 14)
    ensures CastSettings(SettingsInput(None, None, None)) == Valid(DefaultSettings)
  {
  }

  /** The name path: required, trimmed, at most 100 characters once trimmed. */
  function CastName(name: Option<string>): Outcome<string> {
    if name.None? then Invalid(Required("name"))
    else
      var t := Trim(name.value);
      if t == [] then Invalid(Required("name"))
      else if Utf16Length(t) > MaxNameLength then Invalid(TooLong("name"))
      else Valid(t)
  }

  lemma {:induction false} CastNameSpec(name: Option<string>)
    ensures CastName(name).Valid? <==> name.Some? && !IsBlank(name.value) && Utf16Length(Trim(name.value)) <= MaxNameLength
    ensures CastName(name).Valid? ==>
              var r := CastName(name).value;
              r != [] && !IsSpace(r[0]) && !IsSpace(r[|r| - 1]) && Utf16Length(r) <= MaxNameLength
  {
    if name.Some? {
      TrimEmptyIffBlank(name.value);
      TrimSpec(name.value);
    }
  }

  /** A document the collection can hold. */
  predicate WellFormed(p: Project) {
    && p.id != []
    && p.name != [] && !IsSpace(p.name[0]) && !IsSpace(p.name[|p.name| - 1])
    && Utf16Length(p.name) <= MaxNameLength
    && (forall i :: 0 <= i < |p.files| ==> p.files[i].id != [] && p.files[i].name != [] && p.files[i].path != [])
    && MinFontSize <= p.settings.fontSize <= MaxFontSize
  }

  /** A new document: an id is required, `activeFileId` is null unless
      given, and both dates are the saving time. */
  function CastProject(id: string, name: Option<string>, files: seq<FileInput>, activeFileId: Option<string>,
                       settings: SettingsInput, now: int): Outcome<Project> {
    if id == [] then Invalid(Required("id"))
    else
      match CastName(name)
      case Invalid(e) => Invalid(e)
      case Valid(n) =>
        match CastFiles(files)
        case Invalid(e) => Invalid(e)
        case Valid(fs) =>
          match CastSettings(settings)
          case Invalid(e) => Invalid(e)
          case Valid(st) => Valid(Project(id, n, fs, activeFileId, now, now, st))
  }

  /** Every document that casts is well formed, carries the given id, and is
      stamped with the saving time. */
  lemma {:induction false} CastProjectSpec(id: string, name: Option<string>, files: seq<FileInput>, activeFileId: Option<string>,
                        settings: SettingsInput, now: int)
    ensures CastProject(id, name, files, activeFileId, settings, now).Valid? <==>
              id != [] && CastName(name).Valid? && CastFiles(files).Valid? && CastSettings(settings).Valid?
    ensures CastProject(id, name, files, activeFileId, settings, now).Valid? ==>
              var p := CastProject(id, name, files, activeFileId, settings, now).value;
              && WellFormed(p) && p.id == id && p.activeFileId == activeFileId
              && p.createdAt == now && p.updatedAt == now
              && p.name == Trim(name.value)
  {
    var r := CastProject(id, name, files, activeFileId, settings, now);
    if r.Valid? {
      CastNameSpec(name);
      CastFilesSpec(files);
      CastSettingsSpec(settings);
      var fs := CastFiles(files).value;
      forall i | 0 <= i < |fs| ensures fs[i].id != [] && fs[i].name != [] && fs[i].path != [] {
        CastFileSpec(files[i]);
      }
    }
  }

  /** The pre-save hook. */
  function Stamp(p: Project, now: int): (r: Project)
    ensures r.updatedAt == now
    ensures r.(updatedAt := p.updatedAt) == p
    ensures WellFormed(p) ==> WellFormed(r)
  {
    p.(updatedAt := now)
  }
}
