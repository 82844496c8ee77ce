/** The client-side project store: the current project, the editor's view
    state (open tabs, active file, panel toggles) and a demo user table,
    replaced action by action. `Date.now()` and `new Date()` are passed in as
    `now`; the users array the demo auth keeps in local storage is a field. */
module ProjectStore {
  import opened Wrappers
  import opened JsText
  import opened Model

  /** A row of the demo user table. */
  datatype StoredUser = StoredUser(id: string, email: string, name: string, password: string)

  /** The signed-in user the store exposes: never the password. */
  datatype AuthUser = AuthUser(id: string, name: string, email: string)

  // ---- The new values the actions compute ----

  /** `files.map(file => file.id === fileId ? { ...file, ...updates } : file)`. */
  function UpdateFiles(files: seq<ProjectFile>, fileId: string, u: FilePatch): seq<ProjectFile> {
    if files == [] then []
    else [if files[0].id == fileId then PatchFile(files[0], u) else files[0]] + UpdateFiles(files[1..], fileId, u)
  }

  /** The merge touches exactly the files with that id, in place: the list
      keeps its length and order, every other file is unchanged, and each
      matching file takes the supplied keys and keeps the rest. */
  lemma {:induction false} UpdateFilesSpec(files: seq<ProjectFile>, fileId: string, u: FilePatch)
    ensures |UpdateFiles(files, fileId, u)| == |files|
    ensures forall i :: 0 <= i < |files| && files[i].id != fileId ==> UpdateFiles(files, fileId, u)[i] == files[i]
    ensures forall i :: 0 <= i < |files| && files[i].id == fileId ==>
              UpdateFiles(files, fileId, u)[i] == PatchFile(files[i], u)
  {
    if files != [] {
      UpdateFilesSpec(files[1..], fileId, u);
      var r := UpdateFiles(files, fileId, u);
      assert forall i :: 1 <= i < |files| ==> r[i] == UpdateFiles(files[1..], fileId, u)[i - 1] && files[i] == files[1..][i - 1];
    }
  }

  /** A patch that names no key changes nothing, and applying the same
      patch twice is applying it once. */
  lemma {:induction false} UpdateFilesIdempotent(files: seq<ProjectFile>, fileId: string, u: FilePatch)
    ensures UpdateFiles(files, fileId, NoFileChanges) == files
    ensures UpdateFiles(UpdateFiles(files, fileId, u), fileId, u) == UpdateFiles(files, fileId, u)
  {
    UpdateFilesSpec(files, fileId, NoFileChanges);
    UpdateFilesSpec(files, fileId, u);
    var once := UpdateFiles(files, fileId, u);
    UpdateFilesSpec(once, fileId, u);
    assert UpdateFiles(once, fileId, u) == once by {
      forall i | 0 <= i < |files| ensures UpdateFiles(once, fileId, u)[i] == once[i] {
        if files[i].id != fileId {
          assert once[i] == files[i];
        }
      }
    }
  }

  /** `files.filter(file => file.id !== fileId)`. */
  function WithoutFile(files: seq<ProjectFile>, fileId: string): seq<ProjectFile> {
    if files == [] then []
    else (if files[0].id == fileId then [] else [files[0]]) + WithoutFile(files[1..], fileId)
  }

  /** `ids.filter(id => id !== fileId)`. */
  function WithoutId(ids: seq<string>, fileId: string): seq<string> {
    if ids == [] then []
    else (if ids[0] == fileId then [] else [ids[0]]) + WithoutId(ids[1..], fileId)
  }

  /** The filter drops exactly the files with that id and keeps the others
      in order. */
  lemma {:induction false} WithoutFileSpec(files: seq<ProjectFile>, fileId: string)
    ensures forall f :: f in WithoutFile(files, fileId) <==> f in files && f.id != fileId
    ensures |WithoutFile(files, fileId)| <= |files|
    ensures (forall i :: 0 <= i < |files| ==> files[i].id != fileId) ==> WithoutFile(files, fileId) == files
  {
    if files != [] {
      WithoutFileSpec(files[1..], fileId);
      assert files == [files[0]] + files[1..];
    }
  }

  lemma {:induction false} WithoutIdSpec(ids: seq<string>, fileId: string)
    ensures forall x :: x in WithoutId(ids, fileId) <==> x in ids && x != fileId
    ensures |WithoutId(ids, fileId)| <= |ids|
    ensures fileId !in ids ==> WithoutId(ids, fileId) == ids
  {
    if ids != [] {
      WithoutIdSpec(ids[1..], fileId);
      assert ids == [ids[0]] + ids[1..];
    }
  }

  /** `ids[0] || null`: an empty-string id reads as none. The fallback is
      always one of the tabs, never the empty id, and is missing only when
      there is no tab or the first one is the empty id. */
  function FirstOrNull(ids: seq<string>): (r: Option<string>)
    ensures r.Some? ==> r.value in ids && r.value != [] && r.value == ids[0]
    ensures (forall i :: 0 <= i < |ids| ==> ids[i] != []) ==> (r.Some? <==> ids != [])
  {
    if |ids| > 0 && ids[0] != [] then Some(ids[0]) else None
  }

  /** `ids[ids.length - 1] || null`: one of the tabs, the last one, and
      present whenever there is a tab and no tab has the empty id. */
  function LastOrNull(ids: seq<string>): (r: Option<string>)
    ensures r.Some? ==> r.value in ids && r.value != [] && r.value == ids[|ids| - 1]
    ensures (forall i :: 0 <= i < |ids| ==> ids[i] != []) ==> (r.Some? <==> ids != [])
  {
    if |ids| > 0 && ids[|ids| - 1] != [] then Some(ids[|ids| - 1]) else None
  }

  /** `files.map(file => ({ ...file, isActive: file.id === fileId }))`. */
  function ActivateOnly(files: seq<ProjectFile>, fileId: string): seq<ProjectFile> {
    if files == [] then []
    else [files[0].(isActive := files[0].id == fileId)] + ActivateOnly(files[1..], fileId)
  }

  /** Exactly the files with that id end up active; nothing else about any
      file changes. */
  lemma {:induction false} ActivateOnlySpec(files: seq<ProjectFile>, fileId: string)
    ensures |ActivateOnly(files, fileId)| == |files|
    ensures forall i :: 0 <= i < |files| ==>
              ActivateOnly(files, fileId)[i] == files[i].(isActive := files[i].id == fileId)
    ensures forall i :: 0 <= i < |files| ==> (ActivateOnly(files, fileId)[i].isActive <==> files[i].id == fileId)
  {
    if files != [] {
      ActivateOnlySpec(files[1..], fileId);
      var r := ActivateOnly(files, fileId);
      assert forall i :: 1 <= i < |files| ==> r[i] == ActivateOnly(files[1..], fileId)[i - 1] && files[i] == files[1..][i - 1];
    }
  }

  /** `files.filter(f => f.isOpen).map(f => f.id)`. */
  function OpenIds(files: seq<ProjectFile>): seq<string> {
    if files == [] then []
    else (if files[0].isOpen then [files[0].id] else []) + OpenIds(files[1..])
  }

  lemma {:induction false} OpenIdsSpec(files: seq<ProjectFile>)
    ensures forall x :: x in OpenIds(files) <==> exists i :: 0 <= i < |files| && files[i].isOpen && files[i].id == x
    ensures |OpenIds(files)| <= |files|
  {
    if files != [] {
      OpenIdsSpec(files[1..]);
      forall x ensures x in OpenIds(files) <==> exists i :: 0 <= i < |files| && files[i].isOpen && files[i].id == x {
        if x in OpenIds(files[1..]) {
          var i :| 0 <= i < |files[1..]| && files[1..][i].isOpen && files[1..][i].id == x;
          assert files[i + 1] == files[1..][i];
        }
        if exists i :: 0 <= i < |files| && files[i].isOpen && files[i].id == x {
          var i :| 0 <= i < |files| && files[i].isOpen && files[i].id == x;
          if i > 0 { assert files[1..][i - 1] == files[i]; }
        }
      }
    }
  }

  /** `project.activeFileId || project.files[0]?.id || null`. */
  function InitialActiveFile(project: Project): (r: Option<string>)
    ensures r.Some? ==> r.value != []
  {
    if project.activeFileId.Some? && project.activeFileId.value != [] then project.activeFileId
    else if project.files != [] && project.files[0].id != [] then Some(project.files[0].id)
    else None
  }

  /** Some file of the list has this id. */
  predicate HasFile(files: seq<ProjectFile>, id: string) {
    exists i :: 0 <= i < |files| && files[i].id == id
  }

  /** Opening a project activates its own non-empty active id when it has
      one; otherwise one of its files, or nothing only when no file can be
      chosen. When the stored active id names a file of the project (or is
      missing), the editor always lands on a file of the project. */
  lemma {:induction false} InitialActiveFileSpec(project: Project)
    ensures var r := InitialActiveFile(project);
            r.Some? ==> r == project.activeFileId || HasFile(project.files, r.value)
    ensures project.activeFileId.Some? && project.activeFileId.value != [] ==>
              InitialActiveFile(project) == project.activeFileId
    ensures var r := InitialActiveFile(project);
            (project.activeFileId.Some? && project.activeFileId.value != [] ==> HasFile(project.files, project.activeFileId.value)) ==>
              (r.Some? ==> HasFile(project.files, r.value))
    ensures InitialActiveFile(project).None? <==>
              (project.activeFileId.None? || project.activeFileId.value == []) && (project.files == [] || project.files[0].id == [])
  {
  }

  /** `users.find(u => u.email === email && u.password === password)`. */
  function FindUser(users: seq<StoredUser>, email: string, password: string): Option<StoredUser> {
    if users == [] then None
    else if users[0].email == email && users[0].password == password then Some(users[0])
    else FindUser(users[1..], email, password)
  }

  /** `find` succeeds exactly when some stored user has both the email and
      the password, and yields the first such user. */
  lemma {:induction false} FindUserSpec(users: seq<StoredUser>, email: string, password: string)
    ensures FindUser(users, email, password).Some? <==>
              exists i :: 0 <= i < |users| && users[i].email == email && users[i].password == password
    ensures FindUser(users, email, password).Some? ==>
              FindUser(users, email, password).value in users
              && FindUser(users, email, password).value.email == email
              && FindUser(users, email, password).value.password == password
  {
    if users != [] {
      FindUserSpec(users[1..], email, password);
      if exists i :: 0 <= i < |users| && users[i].email == email && users[i].password == password {
        var i :| 0 <= i < |users| && users[i].email == email && users[i].password == password;
        if i > 0 { assert users[1..][i - 1] == users[i]; }
      }
      if exists i :: 0 <= i < |users[1..]| && users[1..][i].email == email && users[1..][i].password == password {
        var i :| 0 <= i < |users[1..]| && users[1..][i].email == email && users[1..][i].password == password;
        assert users[i + 1] == users[1..][i];
      }
    }
  }

  /** `users.find(u => u.email === email)` is truthy. */
  predicate EmailTaken(users: seq<StoredUser>, email: string) {
    exists i :: 0 <= i < |users| && users[i].email == email
  }

  /** A project stamped `project-<now>`, named as asked or
      'Untitled Project' when no name is passed (an empty name is kept),
      holding the default files and settings. */
  function NewProject(name: Option<string>, now: nat): (r: Project)
    ensures r.id == "project-" + DecimalString(now)
    ensures r.name == (if name.Some? then name.value else "Untitled Project")
    ensures r.files == DefaultProject(now).files && r.settings == DefaultSettings
    ensures r.activeFileId == Some("app-js") && r.createdAt == now && r.updatedAt == now
  {
    DefaultProject(now).(id := "project-" + DecimalString(now), name := OrElse(name, "Untitled Project"))
  }

  // ---- The store ----

  class Store {
    var currentProject: Option<Project>
    var editorState: EditorState
    var isAuthenticated: bool
    var user: Option<AuthUser>
    var users: seq<StoredUser>

    /** The store as first created, with no saved session (`loadedAt` is the
        page's load time the default project is stamped with). */
    constructor (loadedAt: int)
      ensures currentProject == Some(DefaultProject(loadedAt)) && editorState == DefaultEditorState
      ensures !isAuthenticated && user.None? && users == []
    {
      currentProject := Some(DefaultProject(loadedAt));
      editorState := DefaultEditorState;
      isAuthenticated := false;
      user := None;
      users := [];
    }

    method CreateNewProject(name: Option<string>, now: nat)
      modifies this
      ensures currentProject == Some(NewProject(name, now)) && editorState == DefaultEditorState
      ensures isAuthenticated == old(isAuthenticated) && user == old(user) && users == old(users)
    {
      currentProject := Some(NewProject(name, now));
      editorState := DefaultEditorState;
    }

    /** Opens a project: the tabs are its open files, the active file its own
        active id, else its first file's id. */
    method SetCurrentProject(project: Project)
      modifies this
      ensures currentProject == Some(project)
      ensures editorState == DefaultEditorState.(activeFileId := InitialActiveFile(project), openFiles := OpenIds(project.files))
      ensures isAuthenticated == old(isAuthenticated) && user == old(user) && users == old(users)
    {
      currentProject := Some(project);
      editorState := DefaultEditorState.(activeFileId := InitialActiveFile(project), openFiles := OpenIds(project.files));
    }

    method UpdateProjectName(name: string, now: int)
      modifies this
      ensures old(currentProject).None? ==> currentProject.None?
      ensures old(currentProject).Some? ==> currentProject == Some(old(currentProject).value.(name := name, updatedAt := now))
      ensures editorState == old(editorState)
      ensures isAuthenticated == old(isAuthenticated) && user == old(user) && users == old(users)
    {
      if currentProject.Some? {
        currentProject := Some(currentProject.value.(name := name, updatedAt := now));
      }
    }

    /** Appends the file and its tab, without checking for duplicates, and
        makes it active. */
    method AddFile(file: ProjectFile, now: int)
      modifies this
      ensures old(currentProject).None? ==> currentProject.None? && editorState == old(editorState)
      ensures old(currentProject).Some? ==>
                && currentProject == Some(old(currentProject).value.(files := old(currentProject).value.files + [file], updatedAt := now))
                && editorState == old(editorState).(openFiles := old(editorState).openFiles + [file.id], activeFileId := Some(file.id))
      ensures isAuthenticated == old(isAuthenticated) && user == old(user) && users == old(users)
    {
      if currentProject.Some? {
        var p := currentProject.value;
        currentProject := Some(p.(files := p.files + [file], updatedAt := now));
        editorState := editorState.(openFiles := editorState.openFiles + [file.id], activeFileId := Some(file.id));
      }
    }

    method UpdateFile(fileId: string, u: FilePatch, now: int)
      modifies this
      ensures old(currentProject).None? ==> currentProject.None?
      ensures old(currentProject).Some? ==>
                currentProject == Some(old(currentProject).value.(files := UpdateFiles(old(currentProject).value.files, fileId, u), updatedAt := now))
      ensures editorState == old(editorState)
      ensures isAuthenticated == old(isAuthenticated) && user == old(user) && users == old(users)
    {
      if currentProject.Some? {
        var p := currentProject.value;
        currentProject := Some(p.(files := UpdateFiles(p.files, fileId, u), updatedAt := now));
      }
    }

    /** Removes the file and its tab; when it was the active one the first
        remaining tab (or none) becomes active. */
    method DeleteFile(fileId: string, now: int)
      modifies this
      ensures old(currentProject).None? ==> currentProject.None? && editorState == old(editorState)
      ensures old(currentProject).Some? ==>
                && currentProject == Some(old(currentProject).value.(files := WithoutFile(old(currentProject).value.files, fileId), updatedAt := now))
                && editorState.openFiles == WithoutId(old(editorState).openFiles, fileId)
                && editorState.activeFileId ==
                     (if old(editorState).activeFileId == Some(fileId) then FirstOrNull(editorState.openFiles)
                      else old(editorState).activeFileId)
                && editorState.sidebarCollapsed == old(editorState).sidebarCollapsed
                && editorState.previewVisible == old(editorState).previewVisible
      ensures isAuthenticated == old(isAuthenticated) && user == old(user) && users == old(users)
    {
      if currentProject.Some? {
        var p := currentProject.value;
        var newOpenFiles := WithoutId(editorState.openFiles, fileId);
        var newActiveFileId := if editorState.activeFileId == Some(fileId) then FirstOrNull(newOpenFiles) else editorState.activeFileId;
        currentProject := Some(p.(files := WithoutFile(p.files, fileId), updatedAt := now));
        editorState := editorState.(openFiles := newOpenFiles, activeFileId := newActiveFileId);
      }
    }

    method SetActiveFile(fileId: string, now: int)
      modifies this
      ensures old(currentProject).None? ==> currentProject.None? && editorState == old(editorState)
      ensures old(currentProject).Some? ==>
                && currentProject == Some(old(currentProject).value.(files := ActivateOnly(old(currentProject).value.files, fileId),
                                                                    activeFileId := Some(fileId), updatedAt := now))
                && editorState == old(editorState).(activeFileId := Some(fileId))
      ensures isAuthenticated == old(isAuthenticated) && user == old(user) && users == old(users)
    {
      if currentProject.Some? {
        var p := currentProject.value;
        currentProject := Some(p.(files := ActivateOnly(p.files, fileId), activeFileId := Some(fileId), updatedAt := now));
        editorState := editorState.(activeFileId := Some(fileId));
      }
    }

    /** Adds a tab only when absent, and always makes it active; it does not
        look at the project. */
    method OpenFile(fileId: string)
      modifies this
      ensures editorState.openFiles == (if fileId in old(editorState).openFiles then old(editorState).openFiles
                                        else old(editorState).openFiles + [fileId])
      ensures editorState == old(editorState).(openFiles := editorState.openFiles, activeFileId := Some(fileId))
      ensures fileId in editorState.openFiles
      ensures currentProject == old(currentProject)
      ensures isAuthenticated == old(isAuthenticated) && user == old(user) && users == old(users)
    {
      if fileId !in editorState.openFiles {
        editorState := editorState.(openFiles := editorState.openFiles + [fileId], activeFileId := Some(fileId));
      } else {
        editorState := editorState.(activeFileId := Some(fileId));
      }
    }

    /** Removes the tab; when it was the active one the last remaining tab
        (or none) becomes active. The project is untouched. */
    method CloseFile(fileId: string)
      modifies this
      ensures editorState.openFiles == WithoutId(old(editorState).openFiles, fileId)
      ensures editorState.activeFileId ==
                (if old(editorState).activeFileId == Some(fileId) then LastOrNull(editorState.openFiles)
                 else old(editorState).activeFileId)
      ensures editorState.sidebarCollapsed == old(editorState).sidebarCollapsed
      ensures editorState.previewVisible == old(editorState).previewVisible
      ensures currentProject == old(currentProject)
      ensures isAuthenticated == old(isAuthenticated) && user == old(user) && users == old(users)
    {
      var newOpenFiles := WithoutId(editorState.openFiles, fileId);
      var newActiveFileId := if editorState.activeFileId == Some(fileId) then LastOrNull(newOpenFiles) else editorState.activeFileId;
      editorState := editorState.(openFiles := newOpenFiles, activeFileId := newActiveFileId);
    }

    method ToggleSidebar()
      modifies this
      ensures editorState == old(editorState).(sidebarCollapsed := !old(editorState).sidebarCollapsed)
      ensures currentProject == old(currentProject)
      ensures isAuthenticated == old(isAuthenticated) && user == old(user) && users == old(users)
    {
      editorState := editorState.(sidebarCollapsed := !editorState.sidebarCollapsed);
    }

    method TogglePreview()
      modifies this
      ensures editorState == old(editorState).(previewVisible := !old(editorState).previewVisible)
      ensures currentProject == old(currentProject)
      ensures isAuthenticated == old(isAuthenticated) && user == old(user) && users == old(users)
    {
      editorState := editorState.(previewVisible := !editorState.previewVisible);
    }

    method UpdateSettings(patch: SettingsPatch, now: int)
      modifies this
      ensures old(currentProject).None? ==> currentProject.None?
      ensures old(currentProject).Some? ==>
                currentProject == Some(old(currentProject).value.(settings := PatchSettings(old(currentProject).value.settings, patch),
                                                                 updatedAt := now))
      ensures editorState == old(editorState)
      ensures isAuthenticated == old(isAuthenticated) && user == old(user) && users == old(users)
    {
      if currentProject.Some? {
        var p := currentProject.value;
        currentProject := Some(p.(settings := PatchSettings(p.settings, patch), updatedAt := now));
      }
    }

    /** Signs in the first stored user with that email and password. */
    method Login(email: string, password: string) returns (ok: bool)
      modifies this
      ensures ok <==> exists i :: 0 <= i < |users| && users[i].email == email && users[i].password == password
      ensures ok ==> isAuthenticated && FindUser(users, email, password).Some?
                     && user == Some(AuthUser(FindUser(users, email, password).value.id,
                                              FindUser(users, email, password).value.name, email))
      ensures !ok ==> isAuthenticated == old(isAuthenticated) && user == old(user)
      ensures users == old(users) && currentProject == old(currentProject) && editorState == old(editorState)
    {
      FindUserSpec(users, email, password);
      var found := FindUser(users, email, password);
      if found.Some? {
        isAuthenticated := true;
        user := Some(AuthUser(found.value.id, found.value.name, found.value.email));
        return true;
      }
      return false;
    }

    /** Refuses a taken email and changes nothing; otherwise appends exactly
        one user `user-<now>` and signs them in. */
    method Register(email: string, name: string, password: string, now: nat) returns (ok: bool)
      modifies this
      ensures ok <==> !EmailTaken(old(users), email)
      ensures !ok ==> users == old(users) && isAuthenticated == old(isAuthenticated) && user == old(user)
      ensures ok ==> users == old(users) + [StoredUser("user-" + DecimalString(now), email, name, password)]
      ensures ok ==> isAuthenticated && user == Some(AuthUser("user-" + DecimalString(now), name, email))
      ensures currentProject == old(currentProject) && editorState == old(editorState)
    {
      if EmailTaken(users, email) {
        return false;
      }
      var newUser := StoredUser("user-" + DecimalString(now), email, name, password);
      users := users + [newUser];
      isAuthenticated := true;
      user := Some(AuthUser(newUser.id, newUser.name, newUser.email));
      return true;
    }

    method Logout()
      modifies this
      ensures !isAuthenticated && user.None?
      ensures users == old(users) && currentProject == old(currentProject) && editorState == old(editorState)
    {
      isAuthenticated := false;
      user := None;
    }
  }

  /** After a successful registration, the same credentials log in. */
  lemma {:induction false} RegisterThenLogin(users: seq<StoredUser>, email: string, name: string, password: string, id: string)
    ensures FindUser(users + [StoredUser(id, email, name, password)], email, password).Some?
  {
    var all := users + [StoredUser(id, email, name, password)];
    FindUserSpec(all, email, password);
    assert all[|users|].email == email && all[|users|].password == password;
  }

  /** Deleting a file leaves neither it nor its tab, and closing a tab
      leaves the tab list without it; an active id that survives is still
      a tab when it was one. */
  lemma {:induction false} DeleteAndCloseDropTheId(ids: seq<string>, fileId: string, active: Option<string>)
    requires active.Some? ==> active.value in ids
    ensures fileId !in WithoutId(ids, fileId)
    ensures var rest := WithoutId(ids, fileId);
            var first := if active == Some(fileId) then FirstOrNull(rest) else active;
            var last := if active == Some(fileId) then LastOrNull(rest) else active;
            (first.Some? ==> first.value in rest) && (last.Some? ==> last.value in rest)
  {
    WithoutIdSpec(ids, fileId);
  }
}
