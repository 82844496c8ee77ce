/** The file explorer: creating a file from a typed name and a kind (the
    kind's extension, the starter content), grouping the project's files by
    folder, and the set of expanded folders. */
module Sidebar {
  import opened Wrappers
  import opened JsText
  import opened Model
  import opened ProjectStore

  /** The extension appended to a name typed without a dot. */
  function Extension(kind: FileType): (r: string)
    ensures |r| >= 4 && r[0] == '.' && '.' !in r[1..]
  {
    match kind
    case Component => ".jsx"
    case Style => ".css"
    case Config => ".json"
    case Other => ".txt"
  }

  /** A typed name that contains a dot is kept as typed (untrimmed);
      otherwise the kind's extension is appended. */
  function NewFileName(typed: string, kind: FileType): (r: string)
    ensures '.' in r
    ensures '.' in typed ==> r == typed
  {
    if '.' in typed then typed else typed + Extension(kind)
  }

  /** The four suffixes `componentName` strips. */
  const CodeExtensions: set<string> := {".jsx", ".js", ".tsx", ".ts"}

  /** `fileName.replace(/\.(jsx|js|tsx|ts)$/, '')`: one trailing code
      extension removed. At most one of the four can end a name. */
  function ComponentName(fileName: string): string {
    if EndsWith(fileName, ".jsx") then fileName[..|fileName| - 4]
    else if EndsWith(fileName, ".js") then fileName[..|fileName| - 3]
    else if EndsWith(fileName, ".tsx") then fileName[..|fileName| - 4]
    else if EndsWith(fileName, ".ts") then fileName[..|fileName| - 3]
    else fileName
  }

  /** The component name is a prefix of the file name; what is cut off is
      one of the four code extensions, and nothing is cut off when the name
      ends with none of them. */
  lemma {:induction false} ComponentNameSpec(fileName: string)
    ensures var r := ComponentName(fileName);
            && |r| <= |fileName| && r == fileName[..|r|]
            && (r != fileName ==> fileName[|r|..] in CodeExtensions)
            && ((forall ext | ext in CodeExtensions :: !EndsWith(fileName, ext)) ==> r == fileName)
  {
  }

  /** A text whose `k`-th character from the end differs from that of
      `suffix` does not end with it. */
  lemma {:induction false} NotEndsWith(s: string, suffix: string, k: nat)
    requires 0 < k <= |suffix| && k <= |s|
    requires s[|s| - k] != suffix[|suffix| - k]
    ensures !EndsWith(s, suffix)
  {
    if |suffix| <= |s| {
      assert s[|s| - |suffix|..][|suffix| - k] == s[|s| - k];
    }
  }

  /** Removing an ending code extension gives back exactly the name before
      it: the regular expression is anchored and matches once. */
  lemma {:induction false} ComponentNameStrips(stem: string, ext: string)
    requires ext in CodeExtensions
    ensures ComponentName(stem + ext) == stem
  {
    var s := stem + ext;
    assert s[|stem|..] == ext;
    assert s[..|stem|] == stem;
    if ext == ".js" {
      NotEndsWith(s, ".jsx", 1);
    } else if ext == ".tsx" {
      NotEndsWith(s, ".jsx", 3);
      NotEndsWith(s, ".js", 1);
    } else if ext == ".ts" {
      NotEndsWith(s, ".jsx", 1);
      NotEndsWith(s, ".js", 2);
      NotEndsWith(s, ".tsx", 1);
    }
  }

  /** A component created from a name without a dot gets `.jsx`, and its
      component name is the typed name again. */
  lemma {:induction false} ComponentNameOfNewComponent(typed: string)
    requires '.' !in typed
    ensures NewFileName(typed, Component) == typed + ".jsx"
    ensures ComponentName(NewFileName(typed, Component)) == typed
  {
    ComponentNameStrips(typed, ".jsx");
  }

  /** Only the last extension goes: `a.js.js` names the component `a.js`,
      and a style sheet keeps its whole name. */
  lemma {:induction false} ComponentNameExamples()
    ensures ComponentName("a.js.js") == "a.js"
    ensures ComponentName("Card.css") == "Card.css"
  {
    ComponentNameStrips("a.js", ".js");
    assert "a.js.js" == "a.js" + ".js";
  }

  const ImportLine := "import React from 'react';\n\n"
  const FunctionKeyword := "function "
  const Parens := "()"
  const ComponentOpen := " {\n  return (\n    <div>\n      <h2>"
  const ComponentBody := "</h2>\n      <p>This is a new React component.</p>\n"
  const ComponentClose := "    </div>\n  );\n}\n\n"
  const ExportKeyword := "export default "
  const CommentOpen := "/* "
  const StylesComment := " styles */\n\n"
  const RuleOpen := " {"
  const RuleBody := "\n  /* Add your styles here */\n}"
  const NameKey := "\"name\": \""
  const VersionEntry := ",\n  \"version\": \"1.0.0\"\n}"
  const LineComment := "// "
  const OtherTail := "\n\n// Add your content here"

  /** `function <name>()`. */
  function Declaration(name: string): string {
    FunctionKeyword + name + Parens
  }

  function ComponentMarkup(name: string): string {
    ComponentOpen + name + ComponentBody + ComponentClose
  }

  /** `export default <name>;`. */
  function ExportLine(name: string): string {
    ExportKeyword + name + ";"
  }

  /** The starter content of a component named `name`. */
  function ComponentSource(name: string): string {
    ImportLine + Declaration(name) + ComponentMarkup(name) + ExportLine(name)
  }

  /** The starter content of a new file of the given kind. */
  function DefaultContent(kind: FileType, fileName: string): string {
    var name := ComponentName(fileName);
    match kind
    case Component => ComponentSource(name)
    case Style => CommentOpen + fileName + StylesComment + "." + ToLower(name) + RuleOpen + RuleBody
    case Config => "{\n  " + NameKey + name + "\"" + VersionEntry
    case Other => LineComment + fileName + OtherTail
  }

  /** A component declares `function <name>()` and ends by default-exporting
      `<name>`. */
  lemma {:induction false} ComponentSourceSpec(name: string)
    ensures Contains(ComponentSource(name), Declaration(name))
    ensures EndsWith(ComponentSource(name), ExportLine(name))
  {
    var c := ComponentSource(name);
    var front := ImportLine + Declaration(name) + ComponentMarkup(name);
    assert c == ImportLine + Declaration(name) + (ComponentMarkup(name) + ExportLine(name));
    Contained(ImportLine, Declaration(name), ComponentMarkup(name) + ExportLine(name));
    assert c[|front|..] == ExportLine(name);
  }

  /** A style sheet has a rule `.<name> {` for the lower-cased component
      name. */
  lemma {:induction false} StyleContentSpec(fileName: string)
    ensures Contains(DefaultContent(Style, fileName), "." + ToLower(ComponentName(fileName)) + RuleOpen)
  {
    var c := DefaultContent(Style, fileName);
    var pre := CommentOpen + fileName + StylesComment;
    var sub := "." + ToLower(ComponentName(fileName)) + RuleOpen;
    assert c == pre + sub + RuleBody;
    Contained(pre, sub, RuleBody);
  }

  /** A config file names the package after the component name. */
  lemma {:induction false} ConfigContentSpec(fileName: string)
    ensures Contains(DefaultContent(Config, fileName), NameKey + ComponentName(fileName) + "\"")
  {
    var c := DefaultContent(Config, fileName);
    var sub := NameKey + ComponentName(fileName) + "\"";
    assert c == "{\n  " + sub + VersionEntry;
    Contained("{\n  ", sub, VersionEntry);
  }

  /** Any other file starts with its name in a line comment. */
  lemma {:induction false} OtherContentSpec(fileName: string)
    ensures DefaultContent(Other, fileName)[..3 + |fileName|] == LineComment + fileName
  {
    var c := DefaultContent(Other, fileName);
    assert c == (LineComment + fileName) + OtherTail;
  }

  /** The file `handleCreateFile` adds; `id` stands for `file-${Date.now()}`. */
  function NewFile(typed: string, kind: FileType, id: string): ProjectFile {
    var name := NewFileName(typed, kind);
    ProjectFile(id, name, DefaultContent(kind, name), kind, "/" + name, true, true)
  }

  /** A typed name without `/` gives a file name without `/`. */
  lemma {:induction false} NewFileNameNoSlash(typed: string, kind: FileType)
    requires '/' !in typed
    ensures '/' !in NewFileName(typed, kind)
  {
    var ext := Extension(kind);
    assert '/' !in ext by {
      match kind
      case Component =>
      case Style =>
      case Config =>
      case Other =>
    }
    assert forall c :: c in typed + ext <==> c in typed || c in ext;
  }

  /** The new file sits at the root under its own name, open and active,
      with the selected kind. */
  lemma {:induction false} NewFileSpec(typed: string, kind: FileType, id: string)
    requires '/' !in typed
    ensures var f := NewFile(typed, kind, id);
            && f.path == "/" + f.name && FolderOf(f.path) == "root"
            && LastSegment(f.path, '/') == f.name
            && f.kind == kind && f.isOpen && f.isActive && f.id == id
            && ('.' in typed ==> f.name == typed)
            && ('.' !in typed ==> f.name == typed + Extension(kind))
  {
    NewFileNameNoSlash(typed, kind);
    RootPath(NewFileName(typed, kind));
  }

  lemma {:induction false} RootPath(name: string)
    requires '/' !in name
    ensures LastSegment("/" + name, '/') == name
    ensures BeforeLastSegment("/" + name, '/') == []
    ensures FolderOf("/" + name) == "root"
  {
    var p := "/" + name;
    assert '/' in p by { assert p[0] == '/'; }
    var last := LastSegment(p, '/');
    var before := BeforeLastSegment(p, '/');
    BeforeLastSegmentSpec(p, '/');
    assert before + ['/'] + last == p;
    assert forall i :: 0 < i < |p| ==> p[i] == name[i - 1];
    assert (before + ['/'] + last)[|before|] == '/';
  }

  /** The group of a path: the text before its last `/`, or `'root'` when
      that is empty. */
  function FolderOf(path: string): string {
    var dir := BeforeLastSegment(path, '/');
    if dir == [] then "root" else dir
  }

  /** A group key is never empty; it is `'root'` or the path minus its
      last segment and the `/` before it. */
  lemma {:induction false} FolderOfSpec(path: string)
    ensures FolderOf(path) != []
    ensures FolderOf(path) == "root" || FolderOf(path) + "/" + LastSegment(path, '/') == path
    ensures '/' !in path ==> FolderOf(path) == "root"
  {
    BeforeLastSegmentSpec(path, '/');
  }

  /** The files of `folder`, in their order in `files`. */
  function FilesIn(files: seq<ProjectFile>, folder: string): seq<ProjectFile> {
    if files == [] then []
    else
      var last := files[|files| - 1];
      FilesIn(files[..|files| - 1], folder) + (if FolderOf(last.path) == folder then [last] else [])
  }

  /** The groups the explorer lists: one per folder holding a file. */
  function Folders(files: seq<ProjectFile>): set<string> {
    if files == [] then {}
    else Folders(files[..|files| - 1]) + {FolderOf(files[|files| - 1].path)}
  }

  /** The folders are exactly those of the files. */
  lemma {:induction false} FoldersSpec(files: seq<ProjectFile>)
    ensures forall k :: k in Folders(files) <==> exists i :: 0 <= i < |files| && FolderOf(files[i].path) == k
  {
    forall k | k in Folders(files)
      ensures exists i :: 0 <= i < |files| && FolderOf(files[i].path) == k
    {
      var i := FolderWitness(files, k);
    }
    FoldersComplete(files);
  }

  /** A listed folder is the folder of some file. */
  lemma {:induction false} FolderWitness(files: seq<ProjectFile>, k: string) returns (i: nat)
    requires k in Folders(files)
    ensures i < |files| && FolderOf(files[i].path) == k
  {
    var last := |files| - 1;
    if k == FolderOf(files[last].path) {
      i := last;
    } else {
      i := FolderWitness(files[..last], k);
    }
  }

  /** The folder of every file is listed. */
  lemma {:induction false} FoldersComplete(files: seq<ProjectFile>)
    ensures forall i :: 0 <= i < |files| ==> FolderOf(files[i].path) in Folders(files)
  {
    if files != [] {
      var init := files[..|files| - 1];
      FoldersComplete(init);
      forall i | 0 <= i < |files| - 1
        ensures FolderOf(files[i].path) in Folders(files)
      {
        assert files[i] == init[i];
      }
    }
  }

  /** A group holds files of that folder only, and only files of the
      list. */
  lemma {:induction false} FilesInSound(files: seq<ProjectFile>, folder: string)
    ensures forall f :: f in FilesIn(files, folder) ==> f in files && FolderOf(f.path) == folder
  {
    if files != [] {
      FilesInSound(files[..|files| - 1], folder);
    }
  }

  /** Every file is in the group of its folder. */
  lemma {:induction false} FilesInComplete(files: seq<ProjectFile>)
    ensures forall i :: 0 <= i < |files| ==> files[i] in FilesIn(files, FolderOf(files[i].path))
  {
    if files != [] {
      var init := files[..|files| - 1];
      FilesInComplete(init);
      forall i | 0 <= i < |files| ensures files[i] in FilesIn(files, FolderOf(files[i].path)) {
        if i < |files| - 1 {
          assert files[i] == init[i];
        }
      }
    }
  }

  /** Grouping keeps the order: the group of a list is the group of its
      first part followed by the group of the rest. */
  lemma {:induction false} FilesInAppend(a: seq<ProjectFile>, b: seq<ProjectFile>, folder: string)
    ensures FilesIn(a + b, folder) == FilesIn(a, folder) + FilesIn(b, folder)
  {
    if b == [] {
      assert a + b == a;
    } else {
      var b' := b[..|b| - 1];
      var last := b[|b| - 1];
      var tail := if FolderOf(last.path) == folder then [last] else [];
      assert (a + b)[..|a + b| - 1] == a + b';
      assert (a + b)[|a + b| - 1] == last;
      assert FilesIn(a + b, folder) == FilesIn(a + b', folder) + tail;
      assert FilesIn(b, folder) == FilesIn(b', folder) + tail;
      FilesInAppend(a, b', folder);
    }
  }

  /** A folder that no file is in has no group. */
  lemma {:induction false} FilesInAbsent(files: seq<ProjectFile>, folder: string)
    requires folder !in Folders(files)
    ensures FilesIn(files, folder) == []
  {
    if files != [] {
      FilesInAbsent(files[..|files| - 1], folder);
    }
  }

  /** `filesByFolder`: the reduce that pushes each file onto the array of
      its folder, creating the array on first use. */
  method GroupByFolder(files: seq<ProjectFile>) returns (groups: map<string, seq<ProjectFile>>)
    ensures Grouped(groups, files)
  {
    groups := map[];
    var i := 0;
    while i < |files|
      invariant 0 <= i <= |files|
      invariant Grouped(groups, files[..i])
    {
      var file := files[i];
      var folder := FolderOf(file.path);
      var prev: seq<ProjectFile> := [];
      if folder in groups {
        prev := groups[folder];
      }
      GroupStep(groups, files, i);
      groups := groups[folder := prev + [file]];
      i := i + 1;
    }
    assert files[..i] == files;
  }

  /** `groups` is the grouping of `files`: one entry per folder, holding
      that folder's files in order. */
  predicate Grouped(groups: map<string, seq<ProjectFile>>, files: seq<ProjectFile>) {
    && groups.Keys == Folders(files)
    && forall k :: k in groups ==> groups[k] == FilesIn(files, k)
  }

  /** Pushing file `i` onto its folder's array extends the grouping of the
      first `i` files to the first `i + 1`. */
  lemma {:induction false} GroupStep(groups: map<string, seq<ProjectFile>>, files: seq<ProjectFile>, i: nat)
    requires i < |files| && Grouped(groups, files[..i])
    ensures var folder := FolderOf(files[i].path);
            var prev := if folder in groups then groups[folder] else [];
            Grouped(groups[folder := prev + [files[i]]], files[..i + 1])
  {
    var folder := FolderOf(files[i].path);
    var prev := if folder in groups then groups[folder] else [];
    var next := groups[folder := prev + [files[i]]];
    FoldersStep(files, i);
    if folder !in groups {
      FilesInAbsent(files[..i], folder);
    }
    forall k | k in next ensures next[k] == FilesIn(files[..i + 1], k) {
      FilesInStep(files, i, k);
    }
  }

  /** One more file adds its folder to the folders. */
  lemma {:induction false} FoldersStep(files: seq<ProjectFile>, i: nat)
    requires i < |files|
    ensures Folders(files[..i + 1]) == Folders(files[..i]) + {FolderOf(files[i].path)}
  {
    assert files[..i + 1][..i] == files[..i];
  }

  /** One more file joins the group of its folder and no other. */
  lemma {:induction false} FilesInStep(files: seq<ProjectFile>, i: nat, k: string)
    requires i < |files|
    ensures FilesIn(files[..i + 1], k)
            == FilesIn(files[..i], k) + (if FolderOf(files[i].path) == k then [files[i]] else [])
  {
    var next := files[..i + 1];
    assert next[..i] == files[..i];
  }

  /** `currentProject?.files.reduce(...) || {}`. */
  method FilesByFolder(current: Option<Project>) returns (groups: map<string, seq<ProjectFile>>)
    ensures current.None? ==> groups == map[]
    ensures current.Some? ==> Grouped(groups, current.value.files)
  {
    if current.None? {
      return map[];
    }
    groups := GroupByFolder(current.value.files);
  }

  /** The set after clicking a folder: an expanded folder collapses, a
      collapsed one expands. */
  function Toggled(expanded: set<string>, folder: string): set<string> {
    if folder in expanded then expanded - {folder} else expanded + {folder}
  }

  /** Toggling flips the clicked folder and no other. */
  lemma {:induction false} ToggledSpec(expanded: set<string>, folder: string)
    ensures folder in Toggled(expanded, folder) <==> folder !in expanded
    ensures forall f :: f != folder ==> (f in Toggled(expanded, folder) <==> f in expanded)
  {
  }

  /** Toggling the same folder twice restores the set. */
  lemma {:induction false} ToggledTwice(expanded: set<string>, folder: string)
    ensures Toggled(Toggled(expanded, folder), folder) == expanded
  {
  }

  /** The explorer's own state. */
  class Explorer {
    var showNewFileDialog: bool
    var newFileName: string
    var newFileType: FileType
    var expandedFolders: set<string>

    constructor ()
      ensures !showNewFileDialog && newFileName == [] && newFileType == Component
      ensures expandedFolders == {"root"}
    {
      showNewFileDialog := false;
      newFileName := [];
      newFileType := Component;
      expandedFolders := {"root"};
    }

    /** `handleCreateFile`: nothing happens for a blank name; otherwise the
        new file is added to the store, and the dialog closes with an empty
        name. */
    method CreateFile(store: Store, id: string, now: int)
      modifies this, store
      ensures IsBlank(old(newFileName)) ==> unchanged(this) && unchanged(store)
      ensures !IsBlank(old(newFileName)) ==>
                && newFileName == [] && !showNewFileDialog
                && newFileType == old(newFileType) && expandedFolders == old(expandedFolders)
      ensures !IsBlank(old(newFileName)) && old(store.currentProject).Some? ==>
                store.currentProject == Some(old(store.currentProject).value.(
                  files := old(store.currentProject).value.files + [NewFile(old(newFileName), newFileType, id)],
                  updatedAt := now))
      ensures !IsBlank(old(newFileName)) && old(store.currentProject).Some? ==>
                store.editorState == old(store.editorState).(
                  openFiles := old(store.editorState).openFiles + [id], activeFileId := Some(id))
      ensures old(store.currentProject).None? ==>
                store.currentProject.None? && store.editorState == old(store.editorState)
      ensures store.isAuthenticated == old(store.isAuthenticated) && store.user == old(store.user)
      ensures store.users == old(store.users)
    {
      var name := newFileName;
      TrimEmptyIffBlank(name);
      if Trim(name) == [] {
        return;
      }
      var file := NewFile(name, newFileType, id);
      assert file.id == id;
      store.AddFile(file, now);
      newFileName := [];
      showNewFileDialog := false;
    }

    method ToggleFolder(folder: string)
      modifies this
      ensures expandedFolders == Toggled(old(expandedFolders), folder)
      ensures showNewFileDialog == old(showNewFileDialog) && newFileName == old(newFileName)
      ensures newFileType == old(newFileType)
    {
      var next := expandedFolders;
      if folder in next {
        next := next - {folder};
      } else {
        next := next + {folder};
      }
      expandedFolders := next;
    }

    /** `handleFileClick`: the clicked file becomes active and gets a tab. */
    method FileClick(store: Store, fileId: string, now: int)
      modifies store
      ensures store.editorState.activeFileId == Some(fileId)
      ensures store.editorState.openFiles ==
                (if fileId in old(store.editorState).openFiles then old(store.editorState).openFiles
                 else old(store.editorState).openFiles + [fileId])
      ensures store.editorState.sidebarCollapsed == old(store.editorState).sidebarCollapsed
      ensures store.editorState.previewVisible == old(store.editorState).previewVisible
      ensures store.isAuthenticated == old(store.isAuthenticated) && store.user == old(store.user)
      ensures store.users == old(store.users)
      ensures old(store.currentProject).Some? ==>
                store.currentProject == Some(old(store.currentProject).value.(
                  files := ActivateOnly(old(store.currentProject).value.files, fileId),
                  activeFileId := Some(fileId), updatedAt := now))
      ensures old(store.currentProject).None? ==> store.currentProject.None?
    {
      store.SetActiveFile(fileId, now);
      store.OpenFile(fileId);
    }

    /** `handleDeleteFile`: the file goes only once the user confirms. */
    method DeleteFile(store: Store, fileId: string, confirmed: bool, now: int)
      modifies store
      ensures !confirmed ==> unchanged(store)
      ensures confirmed && old(store.currentProject).Some? ==>
                && store.currentProject == Some(old(store.currentProject).value.(
                     files := WithoutFile(old(store.currentProject).value.files, fileId), updatedAt := now))
                && store.editorState.openFiles == WithoutId(old(store.editorState).openFiles, fileId)
                && store.editorState.activeFileId ==
                     (if old(store.editorState).activeFileId == Some(fileId) then FirstOrNull(store.editorState.openFiles)
                      else old(store.editorState).activeFileId)
                && store.editorState.sidebarCollapsed == old(store.editorState).sidebarCollapsed
                && store.editorState.previewVisible == old(store.editorState).previewVisible
      ensures confirmed && old(store.currentProject).None? ==>
                store.currentProject.None? && store.editorState == old(store.editorState)
      ensures store.isAuthenticated == old(store.isAuthenticated) && store.user == old(store.user)
      ensures store.users == old(store.users)
    {
      if confirmed {
        store.DeleteFile(fileId, now);
      }
    }
  }
}
