/** The top bar: the theme toggle, renaming the project in place, the
    project export, the new-project button and the settings menu (auto-save
    checkbox and font-size choice). */
module Header {
  import opened Wrappers
  import opened JsText
  import opened JsNumber
  import opened Model
  import opened ProjectStore
  import ProjectSchema
  import ProjectManager
  import Editor

  /** `currentProject?.settings.theme === 'light' ? 'dark' : 'light'`:
      without a project the toggle asks for light. */
  function NextTheme(project: Option<Project>): (r: Theme)
    ensures project.Some? ==> r != project.value.settings.theme
    ensures project.None? ==> r == Light
  {
    if project.Some? && project.value.settings.theme == Light then Dark else Light
  }

  function ThemePatch(t: Theme): SettingsPatch {
    NoSettingsChanges.(theme := Some(t))
  }

  /** The project after a theme toggle. */
  function Toggled(p: Project): Project {
    p.(settings := PatchSettings(p.settings, ThemePatch(NextTheme(Some(p)))))
  }

  /** A toggle changes the editor's theme name and nothing else in the
      settings; a second toggle restores the settings. */
  lemma {:induction false} ToggleThemeSpec(p: Project)
    ensures Toggled(p).settings.theme != p.settings.theme
    ensures Editor.ThemeName(Some(Toggled(p))) != Editor.ThemeName(Some(p))
    ensures Toggled(p).settings.autosave == p.settings.autosave
    ensures Toggled(p).settings.fontSize == p.settings.fontSize
    ensures Toggled(Toggled(p)).settings == p.settings
  {
  }

  /** The sizes the font menu offers. */
  const FontOptions: seq<nat> := [12, 14, 16, 18, 20]

  /** Every offered size is one the stored document accepts. */
  lemma {:induction false} FontOptionsAccepted()
    ensures forall i :: 0 <= i < |FontOptions| ==>
              ProjectSchema.MinFontSize <= FontOptions[i] <= ProjectSchema.MaxFontSize
  {
  }

  /** `currentProject?.settings.autosave || false`. */
  function AutosaveChecked(project: Option<Project>): (r: bool)
    ensures r <==> project.Some? && project.value.settings.autosave
  {
    project.Some? && project.value.settings.autosave
  }

  /** The box shows what was last stored: a fresh project has it checked,
      no project leaves it clear, and storing a choice shows that choice
      without touching the theme or the font size. */
  lemma {:induction false} AutosaveCheckedSpec(p: Project, b: bool)
    ensures !AutosaveChecked(None)
    ensures p.settings == DefaultSettings ==> AutosaveChecked(Some(p))
    ensures var q := p.(settings := PatchSettings(p.settings, NoSettingsChanges.(autosave := Some(b))));
            AutosaveChecked(Some(q)) == b && q.settings.theme == p.settings.theme
            && q.settings.fontSize == p.settings.fontSize
  {
  }

  class TopBar {
    var showSettings: bool
    var projectName: string
    var isEditingName: bool

    constructor ()
      ensures !showSettings && projectName == [] && !isEditingName
    {
      showSettings := false;
      projectName := [];
      isEditingName := false;
    }

    /** The effect that copies a non-empty project name into the field. */
    method ProjectChanged(store: Store)
      modifies this
      ensures store.currentProject.Some? && store.currentProject.value.name != [] ==>
                projectName == store.currentProject.value.name
      ensures !(store.currentProject.Some? && store.currentProject.value.name != []) ==>
                projectName == old(projectName)
      ensures showSettings == old(showSettings) && isEditingName == old(isEditingName)
    {
      if store.currentProject.Some? && store.currentProject.value.name != [] {
        projectName := store.currentProject.value.name;
      }
    }

    /** `handleNameChange`: the trimmed name replaces the project's when it
        is not empty; editing ends either way. */
    method NameChange(store: Store, now: int)
      modifies this, store
      ensures !isEditingName && projectName == old(projectName) && showSettings == old(showSettings)
      ensures IsBlank(projectName) ==> store.currentProject == old(store.currentProject)
      ensures !IsBlank(projectName) && old(store.currentProject).Some? ==>
                store.currentProject == Some(old(store.currentProject).value.(name := Trim(projectName), updatedAt := now))
      ensures old(store.currentProject).None? ==> store.currentProject.None?
      ensures store.editorState == old(store.editorState)
      ensures store.isAuthenticated == old(store.isAuthenticated) && store.user == old(store.user)
      ensures store.users == old(store.users)
    {
      TrimEmptyIffBlank(projectName);
      var trimmed := Trim(projectName);
      if trimmed != [] {
        store.UpdateProjectName(trimmed, now);
      }
      isEditingName := false;
    }

    /** `toggleTheme`. */
    method ToggleTheme(store: Store, now: int)
      modifies store
      ensures old(store.currentProject).Some? ==>
                store.currentProject == Some(Toggled(old(store.currentProject).value).(updatedAt := now))
      ensures old(store.currentProject).None? ==> store.currentProject.None?
      ensures store.editorState == old(store.editorState)
      ensures store.isAuthenticated == old(store.isAuthenticated) && store.user == old(store.user)
      ensures store.users == old(store.users)
    {
      store.UpdateSettings(ThemePatch(NextTheme(store.currentProject)), now);
    }

    /** `handleExportProject`: the download name, or nothing without a
        project. */
    method ExportProject(store: Store) returns (fileName: Option<string>)
      ensures store.currentProject.None? ==> fileName.None?
      ensures store.currentProject.Some? ==>
                fileName == Some(ProjectManager.ExportFileName(store.currentProject.value.name))
    {
      if store.currentProject.None? {
        return None;
      }
      fileName := Some(ProjectManager.ExportFileName(store.currentProject.value.name));
    }

    /** `handleNewProject`: a fresh project replaces the current one once
        the user confirms. */
    method NewProject(store: Store, confirmed: bool, now: nat)
      modifies store
      ensures confirmed ==> store.currentProject == Some(ProjectStore.NewProject(None, now))
                            && store.editorState == DefaultEditorState
      ensures !confirmed ==> store.currentProject == old(store.currentProject)
                             && store.editorState == old(store.editorState)
      ensures store.isAuthenticated == old(store.isAuthenticated) && store.user == old(store.user)
      ensures store.users == old(store.users)
    {
      if confirmed {
        store.CreateNewProject(None, now);
      }
    }

    /** The auto-save checkbox sets auto-save to its checked state. */
    method SetAutosave(store: Store, checked: bool, now: int)
      modifies store
      ensures old(store.currentProject).Some? ==>
                && store.currentProject == Some(old(store.currentProject).value.(
                     settings := old(store.currentProject).value.settings.(autosave := checked), updatedAt := now))
                && AutosaveChecked(store.currentProject) == checked
      ensures old(store.currentProject).None? ==> store.currentProject.None?
      ensures store.editorState == old(store.editorState)
      ensures store.isAuthenticated == old(store.isAuthenticated) && store.user == old(store.user)
      ensures store.users == old(store.users)
    {
      store.UpdateSettings(NoSettingsChanges.(autosave := Some(checked)), now);
    }

    /** The font menu: the chosen option's text is read back with
        `parseInt` and becomes the font size. */
    method SelectFontSize(store: Store, choice: nat, now: int)
      requires choice in FontOptions
      modifies store
      ensures old(store.currentProject).Some? ==>
                && store.currentProject == Some(old(store.currentProject).value.(
                     settings := old(store.currentProject).value.settings.(fontSize := choice), updatedAt := now))
                && Editor.FontSize(store.currentProject) == choice
      ensures old(store.currentProject).None? ==> store.currentProject.None?
      ensures store.editorState == old(store.editorState)
      ensures store.isAuthenticated == old(store.isAuthenticated) && store.user == old(store.user)
      ensures store.users == old(store.users)
    {
      var text := DecimalString(choice);
      ParseIntDecimal(choice, []);
      assert text + [] == text;
      var parsed := ParseInt(text);
      store.UpdateSettings(NoSettingsChanges.(fontSize := Some(parsed.value)), now);
    }
  }

  /** A rename stores a name the backend keeps as it is, when it is short
      enough: trimming it again changes nothing. */
  lemma {:induction false} RenamedNameCasts(typed: string)
    requires !IsBlank(typed) && Utf16Length(Trim(typed)) <= ProjectSchema.MaxNameLength
    ensures ProjectSchema.CastName(Some(Trim(typed))) == ProjectSchema.Valid(Trim(typed))
  {
    TrimIdempotent(typed);
    TrimEmptyIffBlank(typed);
  }
}
