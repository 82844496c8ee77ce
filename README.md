# CipherStudio core in Dafny

CipherStudio is a small browser IDE for React projects. Its frontend keeps the current project and the editor's tabs in a client store. It has:

- an explorer to create, open and delete files;
- a Monaco editor;
- a header with theme, name and settings controls;
- a project manager that saves to and loads from the backend;
- a live preview that rewrites `App.js` and runs it in an iframe;
- a login form.

The backend is an Express service over MongoDB. It validates project bodies, stores projects under the Mongoose schema, and registers and logs in users.

The model follows the source file by file, one module each:

- `Wrappers`, `JsText`, `JsNumber`, `JsValues`: shared helpers: JavaScript strings (`trim`, `split().pop()`, `toLowerCase`, UTF-16 `length`, whitespace-run replace), `parseInt`, and JSON values with JavaScript truthiness.
- `Model` (`frontend/src/types/index.ts`): the project, file, settings and editor-state records, and the default project.
- `Validation` (`backend/src/middleware/validation.js`): the middleware as a function returning the first failure.
- `ProjectSchema` (`backend/src/models/Project.js`): the casts, defaults, enums and bounds, and the pre-save stamp.
- `ProjectRoutes` (`backend/src/routes/projects.js`): the routes over a map-valued collection.
- `AuthRoutes` (`backend/src/routes/auth.js`): the routes over a user map; the hash is an uninterpreted function, and `compare` holds when the hash of the password equals the stored hash.
- `ProjectStore` (`frontend/src/store/projectStore.ts`): a class whose fields are the store's state and whose methods are its actions.
- `Preview`, `PreviewRewrite`, `PreviewStatus` (`frontend/src/components/Preview.tsx`): the file map (a loop proved against a function), the four regular-expression rewrites (scanners proved to find the longest match of each pattern), the iframe document, and the status overlay (a state machine plus a class).
- `ProjectManager`, `Sidebar`, `Editor`, `Header`, `Login` (the components of the same names): each component's local state as a class over the store.

The model makes these choices about what is passed in:

- Times, generated ids, the user's answer to `confirm`, and server outcomes are parameters.
- The long built-in texts of the preview are passed as a `Builtins` record. `Preview.Stock` holds the real ones.

Where the code and its intended behaviour differ, the model follows the code:

- A dot-less file name is read whole as its extension, so a file named `css` opens as CSS (`Editor.LanguageOfNoDot`). It does not fall back to javascript.
- The module-syntax rewrite is not idempotent (`PreviewRewrite.StripModuleSyntaxNotIdempotent`).
- A file with `type: ''` passes validation, because the empty string is falsy, and then fails the schema's enum, so creation answers 500 (`ProjectRoutes.EmptyTypePassesButIsNotStored`).
- An update replaces the whole settings object, so settings that are not sent fall back to their defaults (`ProjectRoutes.PartialSettingsResetTheme`).
- A 100-character name passes validation although the message says "less than 100" (`Validation.NameLengthBoundary`).
- The preview's slow-load timer still fires after the frame has loaded, so a ready panel shows the slow advisory (`PreviewStatus.PreviewPanel.OnTimeout` follows `PreviewStatus.Next`; `PreviewStatus.NextFixed` is the corrected reference).
- The local-save confirmation is styled as a failure (`ProjectManager.Manager.SaveToLocal` follows `ProjectManager.ShownAsSuccess`; `ProjectManager.ShownAsSuccessFixed` is the corrected reference).

## Model

| member | source | states |
|---|---|---|
| Validation.CheckEachFile | backend/src/middleware/validation.js:30-65 | the file loop passes exactly when every entry passes on its own; a failing loop reports the verdict of one of its entries |
| Validation.CheckNameSpec | backend/src/middleware/validation.js:4-19 | a name passes iff it is absent, or a string that is not blank after trimming and whose untrimmed length is at most 100 UTF-16 units; the name check never throws |
| Validation.CheckFileSpec | backend/src/middleware/validation.js:30-64 | a file entry passes iff id, name and path are non-empty strings, the type is falsy or one of the four kinds, and the content is absent or a string; reading fields of a null or undefined entry throws, and only that throws |
| Validation.CheckFilesSpec | backend/src/middleware/validation.js:21-66 | the files check passes iff files is absent, or an array whose every entry passes the per-file rules |
| Validation.ValidateProjectAccepts | backend/src/middleware/validation.js:1-102 | the middleware calls next iff the name, the files and the settings each pass their rules |
| Validation.ValidateProjectFirstFailure | backend/src/middleware/validation.js:1-99 | the checks run in order name, files, settings and the first failing one alone decides the 400 message; once name and files pass, the answer is exactly the settings check's verdict |
| Validation.EmptyBodyPasses | backend/src/middleware/validation.js:5-101 | a body with none of the three fields passes to the route |
| Validation.NameLengthBoundary | backend/src/middleware/validation.js:13-18 | a 100-character name passes and a 101-character one gets the too-long message |
| Validation.AsciiUtf16Length | backend/src/middleware/validation.js:13 | `length` counts UTF-16 units, which equals the character count for names inside the Basic Multilingual Plane |
| Validation.FilesCheckedInOrder | backend/src/middleware/validation.js:30-36 | an empty array passes; when the loop throws, the entry that throws is null or undefined and every earlier entry passed |
| AuthRoutes.PublicHidesHash | backend/src/routes/auth.js:24 | the user in a reply does not depend on the stored password hash; two users are answered alike exactly when id, email and name agree |
| AuthRoutes.LoginReplySpec | backend/src/routes/auth.js:32-48 | login succeeds iff email and password are given, the address is registered and the password hashes to the stored hash; it then returns that user; every refusal is 400 or 401 |
| AuthRoutes.LoginHidesUnknownAddress | backend/src/routes/auth.js:37-41 | an unknown address and a wrong password get the same 401 "Invalid credentials" reply |
| AuthRoutes.LoginAfterRegister | backend/src/routes/auth.js:8-48 | after registering an address with a password, logging in with that pair succeeds as the new user |
| AuthRoutes.UserCollection.constructor | backend/src/routes/auth.js:1-5 | the user collection starts empty with the given hash function |
| AuthRoutes.UserCollection.Register | backend/src/routes/auth.js:8-29 | a missing field gives 400 and a taken address gives 409, both leaving the users unchanged; otherwise exactly one user is added under the address, with the password hashed, and the reply is 201 with the public user |
| AuthRoutes.UserCollection.Login | backend/src/routes/auth.js:32-48 | the login route answers with the login reply for the current users and changes nothing |
| ProjectSchema.ParseFileType | backend/src/models/Project.js:16-20 | a file type is accepted iff it is one of component, style, config, other |
| ProjectSchema.ParseTheme | backend/src/models/Project.js:36-40 | a theme is accepted iff it is light or dark, and light maps to light |
| ProjectSchema.CastFileSpec | backend/src/models/Project.js:3-33 | a file casts iff id, name and path are present and non-empty and the type is absent or in the enum; the cast keeps id, name and path, defaults content to "", the type to component and both flags to false |
| ProjectSchema.CastFilesSpec | backend/src/models/Project.js:65 | a file array casts iff every file casts, and the result is those casts in the same order |
| ProjectSchema.CastSettingsSpec | backend/src/models/Project.js:35-51 | settings cast iff the theme is absent or light/dark and the font size is absent or in 10..24; the result keeps the font size in range, is dark only for "dark", has autosave true unless false was given and font size 14 when absent; empty settings cast to the defaults |
| ProjectSchema.CastNameSpec | backend/src/models/Project.js:59-64 | a name casts iff present, not blank, and at most 100 UTF-16 units after trimming; the stored name is non-empty with no space at either end |
| ProjectSchema.CastProjectSpec | backend/src/models/Project.js:53-84 | a project casts iff the id is non-empty and name, files and settings cast; the result is well formed, keeps id and active file id, stores the trimmed name and stamps both dates with the current time |
| ProjectSchema.Stamp | backend/src/models/Project.js:87-90 | saving sets updatedAt to the current time, changes nothing else, and keeps a well-formed project well formed |
| ProjectRoutes.ScreenSpec | backend/src/routes/projects.js:43 | for a typed request body the validation middleware lets the request through iff every given field passes its rule, and it never throws |
| ProjectRoutes.ScreenNeverCrashes | backend/src/routes/projects.js:43 | no typed request body makes the validation middleware throw |
| ProjectRoutes.FirstActive | backend/src/routes/projects.js:134 | `find(f => f.isActive)` yields the first file whose flag is true, and nothing when no file has it |
| ProjectRoutes.CreateActiveIdSpec | backend/src/routes/projects.js:134 | the active file id of a new project is the id of the first active file when that has one, and otherwise the first file's id, or none for no files |
| ProjectRoutes.MergeSettingsSpec | backend/src/routes/projects.js:135-140 | spreading the given settings over light/true/14 casts to what the given settings alone cast to, and to the defaults when none are given |
| ProjectRoutes.SeedFilesSpec | backend/src/routes/projects.js:51-128 | both default files are acceptable to the schema, and the new project's active file is app-js |
| ProjectRoutes.NewDocumentSpec | backend/src/routes/projects.js:45-141 | a created document is well formed, gets the fresh id and the current time, the trimmed name or "Untitled Project", the given files if non-empty and the two defaults otherwise, each cast in order, the active id chosen above and the merged settings |
| ProjectRoutes.CreateNameCasts | backend/src/routes/projects.js:132 | a name that passed validation, or the missing name replaced by "Untitled Project", always casts |
| ProjectRoutes.UntitledNameCasts | backend/src/routes/projects.js:132 | the default name "Untitled Project" passes the schema's name rule |
| ProjectRoutes.PassedFilesCast | backend/src/routes/projects.js:51-133 | files that passed validation and carry no empty type, or the default files, always cast |
| ProjectRoutes.PassedBodyIsStored | backend/src/routes/projects.js:43-143 | a body that passed validation and has no empty type or theme is always stored under a non-empty fresh id |
| ProjectRoutes.NewDocumentWellFormed | backend/src/routes/projects.js:130-143 | a stored document is well formed and has the fresh id |
| ProjectRoutes.EmptyTypePassesButIsNotStored | backend/src/routes/projects.js:43-155 | a file with `type: ''` passes validation (the empty type is falsy) but fails the schema enum, so the create route answers 500 |
| ProjectRoutes.ApplyChangesSpec | backend/src/routes/projects.js:172-185 | an update keeps the project well formed, keeps id and creation time, stamps updatedAt, replaces exactly the given name (trimmed), files and settings, stores a given active file id, clears it on `null`, and keeps the rest |
| ProjectRoutes.NullActiveIdClears | backend/src/routes/projects.js:176-183 | a body holding only `activeFileId: null` passes the middleware and clears the stored active file, changing nothing else but the update time |
| ProjectRoutes.PartialSettingsResetTheme | backend/src/routes/projects.js:178 | sending only a font size replaces the whole settings object, so a dark theme falls back to light and autosave to true |
| ProjectRoutes.ListDefaults | backend/src/routes/projects.js:244-261 | with no query the page is 10 from offset 0 and hasMore holds iff there are more than 10 projects; hasMore always means offset + limit < total |
| ProjectRoutes.ProjectCollection.constructor | backend/src/routes/projects.js:6 | the collection starts empty, with the two default files as seeds |
| ProjectRoutes.ProjectCollection.Show | backend/src/routes/projects.js:9-40 | an empty id gives 400, a known id returns that project and an unknown one gives 404 |
| ProjectRoutes.ProjectCollection.Create | backend/src/routes/projects.js:43-157 | a body the validator refuses gives its 400 message; otherwise the new document is stored under the fresh id and returned with 201, or nothing is stored and the reply is 500 when the schema refuses it |
| ProjectRoutes.ProjectCollection.Update | backend/src/routes/projects.js:160-205 | validation first (400), then a missing id (400), then a schema failure (500), then an unknown id (404); otherwise the project is replaced by the updated one (given fields replaced, an `activeFileId` of `null` stored as null) and returned; nothing else changes |
| ProjectRoutes.ProjectCollection.Remove | backend/src/routes/projects.js:208-239 | an empty id gives 400, an unknown one 404, and a known one is removed from the collection and nothing else |
| ProjectRoutes.ProjectCollection.List | backend/src/routes/projects.js:242-269 | a negative parsed offset is refused by the database and answered 500; otherwise the page reports the total count, the limit and offset parsed with parseInt (defaults 10 and 0), and hasMore iff both parse and offset + limit < total |
| ProjectRoutes.CreateThenRemove | backend/src/routes/projects.js:207-239 | deleting a project just created restores the collection as it was |
| Model.PatchFile | frontend/src/store/projectStore.ts:391 | spreading an empty partial file over a file leaves it unchanged |
| Model.PatchSettings | frontend/src/store/projectStore.ts:511-514 | spreading an empty partial settings object leaves the settings unchanged |
| Model.PatchSettingsSpec | frontend/src/store/projectStore.ts:511-514 | each setting takes the patch's value when given and keeps the old one otherwise, and applying the same patch twice is the same as once |
| ProjectStore.UpdateFilesSpec | frontend/src/store/projectStore.ts:390-392 | the update keeps the number and order of files, patches every file with the given id and leaves every other file as it was |
| ProjectStore.UpdateFilesIdempotent | frontend/src/store/projectStore.ts:390-392 | an empty patch changes nothing, and repeating an update gives the same files |
| ProjectStore.WithoutFileSpec | frontend/src/store/projectStore.ts:407 | the filter keeps exactly the files with another id, never grows, and is the identity when no file has the id |
| ProjectStore.WithoutIdSpec | frontend/src/store/projectStore.ts:404-485 | the filter keeps exactly the other open ids, never grows, and is the identity when the id is not open |
| ProjectStore.FirstOrNull | frontend/src/store/projectStore.ts:410 | the fallback after a delete is always an open tab (the first) and never the empty id, and exists whenever a tab remains and no tab id is empty |
| ProjectStore.LastOrNull | frontend/src/store/projectStore.ts:475 | the fallback after a close is always an open tab (the last) and never the empty id, and exists whenever a tab remains and no tab id is empty |
| ProjectStore.ActivateOnlySpec | frontend/src/store/projectStore.ts:431-434 | after activation the files keep their order and other fields, and a file is active iff it has the given id |
| ProjectStore.OpenIdsSpec | frontend/src/store/projectStore.ts:349 | the open-file list holds exactly the ids of files marked open, at most one entry per file |
| ProjectStore.InitialActiveFileSpec | frontend/src/store/projectStore.ts:348 | opening a project activates its stored active id when non-empty, otherwise a file of the project; when the stored id names a file the editor always lands on a file of the project; nothing is active only when no id can be chosen |
| ProjectStore.FindUserSpec | frontend/src/store/projectStore.ts:556 | a stored user is found iff one has both the email and the password, and the one found has them |
| ProjectStore.NewProject | frontend/src/store/projectStore.ts:327-335 | a new project is "project-" plus the time, named as given or "Untitled Project", with the default files and settings, app-js active, and both dates the current time |
| ProjectStore.Store.constructor | frontend/src/store/projectStore.ts:308-325 | the store starts with the default project and editor state, signed out, with no stored users |
| ProjectStore.Store.CreateNewProject | frontend/src/store/projectStore.ts:327-341 | the current project becomes the new project and the editor state is reset; the sign-in state is kept |
| ProjectStore.Store.SetCurrentProject | frontend/src/store/projectStore.ts:343-352 | the project is taken as is; the editor opens its open files and activates its initial active file, with sidebar and preview reset |
| ProjectStore.Store.UpdateProjectName | frontend/src/store/projectStore.ts:354-365 | with a project, only its name and updatedAt change; with none, nothing changes |
| ProjectStore.Store.AddFile | frontend/src/store/projectStore.ts:367-385 | with a project, the file is appended, opened and made active and updatedAt stamped; with none, nothing changes |
| ProjectStore.Store.UpdateFile | frontend/src/store/projectStore.ts:387-402 | with a project, only the files with the id are patched and updatedAt stamped; the editor state is kept |
| ProjectStore.Store.DeleteFile | frontend/src/store/projectStore.ts:404-426 | with a project, the file is removed from the project and from the open files; when it was active the first remaining open file, or null, becomes active |
| ProjectStore.Store.SetActiveFile | frontend/src/store/projectStore.ts:428-449 | with a project, exactly the file with the id is flagged active, the project's and editor's active id become it and updatedAt is stamped |
| ProjectStore.Store.OpenFile | frontend/src/store/projectStore.ts:451-469 | the id is appended to the open files unless already there, it becomes active, and it is open afterwards; the project is kept |
| ProjectStore.Store.CloseFile | frontend/src/store/projectStore.ts:471-485 | the id leaves the open files; when it was active the last remaining open file, or null, becomes active |
| ProjectStore.Store.ToggleSidebar | frontend/src/store/projectStore.ts:487-494 | only the sidebar flag flips |
| ProjectStore.Store.TogglePreview | frontend/src/store/projectStore.ts:496-503 | only the preview flag flips |
| ProjectStore.Store.UpdateSettings | frontend/src/store/projectStore.ts:505-519 | with a project, the settings patch is spread over its settings and updatedAt stamped |
| ProjectStore.Store.Login | frontend/src/store/projectStore.ts:550-567 | login succeeds iff a stored user has that email and password, and then signs in the first such user by id, name and email; a failure changes nothing |
| ProjectStore.Store.Register | frontend/src/store/projectStore.ts:568-585 | registration succeeds iff the email is not yet taken; it then appends the user with id "user-" plus the time and signs them in, and otherwise changes nothing |
| ProjectStore.Store.Logout | frontend/src/store/projectStore.ts:586-589 | logout signs out and keeps the stored users and the project |
| ProjectStore.RegisterThenLogin | frontend/src/store/projectStore.ts:550-584 | after a user is appended, logging in with that email and password finds a user |
| ProjectStore.DeleteAndCloseDropTheId | frontend/src/store/projectStore.ts:404-485 | after delete or close the id is no longer open, and the newly active file, if any, is one of the open files |
| Preview.SourceKeySpec | frontend/src/components/Preview.tsx:29-30 | every file is keyed "/src/" plus the last path segment when that is non-empty, else its name when non-empty, else "App.js" |
| Preview.CollectFilesKeysFromFiles | frontend/src/components/Preview.tsx:27-32 | every key of the collected map comes from some project file |
| Preview.CollectFilesHasKey | frontend/src/components/Preview.tsx:27-32 | every project file's key is in the collected map |
| Preview.CollectFilesLastWins | frontend/src/components/Preview.tsx:31 | when several files share a key, the last of them supplies the content |
| Preview.CollectFilesLoop | frontend/src/components/Preview.tsx:27-32 | the `forEach` over the project files leaves exactly the collected map, each file written under its key in order |
| Preview.FindByNameSpec | frontend/src/components/Preview.tsx:36-37 | `find` by name yields the first file with that name, and nothing when no file has it |
| Preview.FallbackContentSpec | frontend/src/components/Preview.tsx:36-83 | the fallback is never empty, and is the built-in text when no file of that name has content |
| Preview.BuildSandpackFiles | frontend/src/components/Preview.tsx:21-296 | the loop that fills the file map yields exactly the map the specification function describes |
| Preview.SandpackFilesSpec | frontend/src/components/Preview.tsx:21-296 | with no project the map is empty; otherwise it has exactly the collected keys plus App.js, App.css and both index.js entries, App.js and App.css are non-empty (the project's own when non-empty, else a file found by name, else the built-in), the index files are the built-ins and every other key keeps the collected content |
| Preview.IframeHtmlSpec | frontend/src/components/Preview.tsx:299-377 | the preview document embeds the project's CSS right after the head and the rewritten script after the middle part, and the script is never blank |
| Preview.IframeHtmlParts | frontend/src/components/Preview.tsx:323-376 | the document is head, CSS, middle, script and tail in that order |
| Preview.PlainAppJsEmbeddedVerbatim | frontend/src/components/Preview.tsx:302-321 | an App.js with no `import` word and no `export` word in any case is embedded unchanged |
| Preview.StockWellFormed | frontend/src/components/Preview.tsx:36-283 | the welcome App.js and App.css that the panel falls back to are both non-empty |
| Preview.StockSandpackFiles | frontend/src/components/Preview.tsx:21-296 | with the panel's own texts, a project's map always holds non-empty App.js and App.css entries and the two fixed index.js entry points |
| Preview.StockIframeHtml | frontend/src/components/Preview.tsx:299-377 | with the panel's own texts, the document is the fixed head, the CSS, the fixed middle, the script and the fixed tail, and the script is never blank |
| Preview.NoProjectNoPreview | frontend/src/components/Preview.tsx:21-300 | with no project both the file map and the document are empty |
| Preview.ResizeFrameSpec | frontend/src/components/Preview.tsx:380-424 | after a resize below 640px the frame fills the window and the phone device is chosen; above it the frame shows the chosen device as before; a repeated resize changes nothing; tablet and phone frames differ |
| PreviewRewrite.MatchAt | frontend/src/components/Preview.tsx:309-315 | each rewrite pattern, tried at a position, returns a match that the pattern's regular expression accepts and that is the longest such match |
| PreviewRewrite.MatchImportSpec | frontend/src/components/Preview.tsx:309 | the import scanner accepts exactly the matches of the import pattern (a line start, spaces, `import`, anything up to an optional `;`) and returns the longest one |
| PreviewRewrite.MatchExportDefaultFunctionSpec | frontend/src/components/Preview.tsx:311 | the scanner accepts exactly the matches of `export\s+default\s+function` in any letter case and returns the longest one |
| PreviewRewrite.ExportDefaultFunctionFound | frontend/src/components/Preview.tsx:311 | any match of `export\s+default\s+function` at a position is the one the scanner returns there |
| PreviewRewrite.MatchExportDefaultNameSpec | frontend/src/components/Preview.tsx:313 | the scanner accepts exactly the matches of `export\s+default\s+[A-Za-z0-9_$]+;?` and returns the longest one |
| PreviewRewrite.MatchExportBlockSpec | frontend/src/components/Preview.tsx:315 | the scanner accepts exactly the matches of `export\s+\{[^}]*\};?` and returns the longest one |
| PreviewRewrite.ReplaceFromWithoutMatch | frontend/src/components/Preview.tsx:309-315 | a global replace with no match anywhere returns the text unchanged |
| PreviewRewrite.ReplaceFromShrinks | frontend/src/components/Preview.tsx:309-315 | a global replace never makes the text longer |
| PreviewRewrite.StripModuleSyntaxKeepsPlainText | frontend/src/components/Preview.tsx:306-315 | code with no `import` and no `export` word passes through the four rewrites unchanged |
| PreviewRewrite.StripModuleSyntaxShrinks | frontend/src/components/Preview.tsx:306-315 | the rewrites never make the code longer |
| PreviewRewrite.SafeAppJs | frontend/src/components/Preview.tsx:321 | the code is kept iff it is not blank, is otherwise replaced by the placeholder App, and the result is never blank |
| PreviewRewrite.ExportStepsKeep | frontend/src/components/Preview.tsx:311-315 | code without the word export is left alone by the three export rewrites |
| PreviewRewrite.StripModuleSyntaxNotIdempotent | frontend/src/components/Preview.tsx:309 | "import a;import b;" becomes "\nimport b;" and a second pass changes it again, so the rewrite is not idempotent |
| PreviewRewrite.ImportPassKeepsSecondImport | frontend/src/components/Preview.tsx:309 | in "import a;import b;" the second import is not removed, because it is not at a line start |
| PreviewStatus.ErrorMessageInjective | frontend/src/components/Preview.tsx:411 | distinct non-empty posted errors give distinct messages, and a missing error reads differently from any error other than "unknown" |
| PreviewStatus.InitialConsistent | frontend/src/components/Preview.tsx:18-19 | the panel starts loading with the loading text and a pending timer, the overlay showing |
| PreviewStatus.NextConsistent | frontend/src/components/Preview.tsx:382-503 | every event keeps the overlay hidden exactly when the message is empty, and keeps a loading panel showing the loading text with its timer pending |
| PreviewStatus.RunConsistent | frontend/src/components/Preview.tsx:382-503 | any sequence of events keeps that invariant |
| PreviewStatus.RefreshKeyStep | frontend/src/components/Preview.tsx:382-503 | the refresh key grows by one exactly on a project change, a Refresh click, or a Retry click while the overlay shows, and each such bump restarts loading |
| PreviewStatus.RefreshKeyCounts | frontend/src/components/Preview.tsx:382-503 | over any run the refresh key grows at least by the number of project changes and Refresh clicks, and at most by that plus the Retry clicks |
| PreviewStatus.OtherMessagesIgnored | frontend/src/components/Preview.tsx:403-413 | a posted message of any other type changes nothing |
| PreviewStatus.LateReadyOverwritesError | frontend/src/components/Preview.tsx:392-489 | a ready message after the timeout, or a load after a posted error, leaves the panel ready |
| PreviewStatus.ReadyThenTimeoutShowsAdvisory | frontend/src/components/Preview.tsx:388-489 | as written, a frame that loads before the 8 s timer fires is still reported as slow when the timer fires |
| PreviewStatus.FixedReadyStaysReady | frontend/src/components/Preview.tsx:392-396 | with the timer callback corrected, a ready panel stays ready through timeouts, loads and non-error messages |
| PreviewStatus.FixedAdvisoryOnlyWhileLoading | frontend/src/components/Preview.tsx:392-396 | with the callback corrected, the slow advisory only ever replaces the loading status |
| PreviewStatus.PreviewPanel.constructor | frontend/src/components/Preview.tsx:14-19 | the panel starts in the initial loading state |
| PreviewStatus.PreviewPanel.Bump | frontend/src/components/Preview.tsx:382-399 | a refresh-key bump reloads: key plus one, loading text, timer pending |
| PreviewStatus.PreviewPanel.OnProjectChange | frontend/src/components/Preview.tsx:382-385 | a project change is the as-written step for that event: a reload with a fresh timer |
| PreviewStatus.PreviewPanel.OnRefresh | frontend/src/components/Preview.tsx:466 | the Refresh button is the as-written step for that event: a reload with a fresh timer |
| PreviewStatus.PreviewPanel.OnRetry | frontend/src/components/Preview.tsx:494-503 | the Retry button is the as-written step for that event and only acts while the overlay shows |
| PreviewStatus.PreviewPanel.OnTimeout | frontend/src/components/Preview.tsx:388-399 | the timer callback is the as-written step: a pending timer shows the slow advisory whatever the status, even over a ready panel, and a cancelled one does nothing |
| PreviewStatus.PreviewPanel.OnFrameLoad | frontend/src/components/Preview.tsx:486-489 | a frame load makes the panel ready with an empty message |
| PreviewStatus.PreviewPanel.HandleMessage | frontend/src/components/Preview.tsx:403-413 | a posted message is the as-written step and keeps the overlay invariant |
| ProjectManager.SuccessTextsContainWord | frontend/src/components/ProjectManager.tsx:28-175 | every success text except the local-save one contains "successfully", so it is styled as a success |
| ProjectManager.FailureTextsLackWord | frontend/src/components/ProjectManager.tsx:28-175 | no failure text contains "successfully", so every failure is styled as a failure |
| ProjectManager.LocalSaveShownAsFailure | frontend/src/components/ProjectManager.tsx:172-285 | as written, the styling matches the outcome for every message except the local save, which succeeds but is styled as a failure |
| ProjectManager.StylingFixedMatchesOutcome | frontend/src/components/ProjectManager.tsx:282-290 | with the corrected styling test, a message is styled as a success iff its operation succeeded |
| ProjectManager.CreateBranchSpec | frontend/src/components/ProjectManager.tsx:55-81 | the create branch first posts the project's name, files and settings, then at most fetches; it stores locally iff it reports success, and replaces the project iff it reports creation, using the project the server returned or re-fetched |
| ProjectManager.SaveFlowSpec | frontend/src/components/ProjectManager.tsx:28-93 | saving first fetches the project by id and updates it when that answers; it creates exactly when the fetch or the update fails with 404; any other fetch failure ends with "Error saving project"; it stores locally iff it reports success and replaces the project iff it reports creation |
| ProjectManager.CreatedProjectIsServers | frontend/src/components/ProjectManager.tsx:54-71 | after a 404 the second request creates the project, and a replacement project is always one the server sent |
| ProjectManager.LoadFlowSpec | frontend/src/components/ProjectManager.tsx:101-113 | loading replaces the project iff it reports success, and then with the project the server sent; a 404 reports a load error and replaces nothing |
| ProjectManager.EveryFileLooksValid | frontend/src/components/ProjectManager.tsx:153 | the file check holds iff every file is truthy, has truthy id, name and path and string content |
| ProjectManager.ImportCheckSpec | frontend/src/components/ProjectManager.tsx:142-164 | an import is accepted iff the data parses to a truthy value with truthy id and name, an array of files, and every file looks valid; otherwise it reports an invalid or malformed file; a minimal project with no files is accepted |
| ProjectManager.ExportFileName | frontend/src/components/ProjectManager.tsx:128 | the export file name always ends in ".json" |
| ProjectManager.ExportFileNameSpec | frontend/src/components/ProjectManager.tsx:128 | the exported stem has no whitespace, a name without whitespace is kept as is, and the stem is never longer than the name |
| ProjectManager.Manager.constructor | frontend/src/components/ProjectManager.tsx:23-26 | the manager starts closed, idle, with an empty id box and no message |
| ProjectManager.Manager.SetProjectId | frontend/src/components/ProjectManager.tsx:227-228 | typing in the id box changes only the id box |
| ProjectManager.Manager.SaveToBackend | frontend/src/components/ProjectManager.tsx:28-93 | with no project nothing happens; otherwise the requests, message, local store and replacement project are those of the save flow, loading ends, and the store's sign-in state is kept |
| ProjectManager.Manager.LoadFromBackend | frontend/src/components/ProjectManager.tsx:95-117 | a blank id does nothing; otherwise the typed id is requested, the message is the load outcome, and on success the project is replaced, the editor reopens on it (its open files as tabs, its initial active file) and the id box is cleared; on failure the editor is untouched |
| ProjectManager.Manager.ExportProject | frontend/src/components/ProjectManager.tsx:119-135 | with no project nothing happens; otherwise the download is named after the project and the export message is shown |
| ProjectManager.Manager.ImportProject | frontend/src/components/ProjectManager.tsx:137-170 | the message is the import check's outcome and is styled green exactly when the import was accepted; an accepted import replaces the project and reopens the editor on it, a rejected one leaves the store untouched |
| ProjectManager.Manager.SaveToLocal | frontend/src/components/ProjectManager.tsx:172-175 | the local-save message is shown, and under the styling as written it is shown in the failure style although the save succeeded |
| Sidebar.Extension | frontend/src/components/Sidebar.tsx:70-81 | each file kind's extension is a dot followed by a dot-free suffix of at least three letters |
| Sidebar.NewFileName | frontend/src/components/Sidebar.tsx:53 | a new file's name always contains a dot, and a typed name that already has one is kept as typed |
| Sidebar.ComponentNameSpec | frontend/src/components/Sidebar.tsx:84 | the component name is a prefix of the file name; what is cut off is exactly one of .jsx, .js, .tsx, .ts at the end; a name with none of those endings is kept whole |
| Sidebar.ComponentNameStrips | frontend/src/components/Sidebar.tsx:84 | for any stem, stripping a code extension from stem plus that extension gives back the stem |
| Sidebar.ComponentNameOfNewComponent | frontend/src/components/Sidebar.tsx:49-84 | a dot-free typed name for a component becomes name.jsx, whose component name is the typed name |
| Sidebar.ComponentNameExamples | frontend/src/components/Sidebar.tsx:84 | only the last code extension is removed ("a.js.js" gives "a.js"), and a stylesheet name is kept whole |
| Sidebar.ComponentSourceSpec | frontend/src/components/Sidebar.tsx:87-99 | a new component's source declares a function named after the component and ends by exporting it |
| Sidebar.StyleContentSpec | frontend/src/components/Sidebar.tsx:100-105 | a new stylesheet holds a rule for the lower-cased component name |
| Sidebar.ConfigContentSpec | frontend/src/components/Sidebar.tsx:106-110 | a new config file's "name" entry is the component name |
| Sidebar.OtherContentSpec | frontend/src/components/Sidebar.tsx:111-112 | any other new file starts with a line comment holding its file name |
| Sidebar.NewFileNameNoSlash | frontend/src/components/Sidebar.tsx:49-81 | a typed name without a slash gives a file name without a slash |
| Sidebar.NewFileSpec | frontend/src/components/Sidebar.tsx:49-63 | a new file has the given id and kind, is open and active, lives at "/" plus its name in the root group, and is named as typed, or as typed plus the kind's extension when the typed name has no dot |
| Sidebar.RootPath | frontend/src/components/Sidebar.tsx:140 | a top-level path's last segment is the name and its group is root |
| Sidebar.FolderOfSpec | frontend/src/components/Sidebar.tsx:140 | a group key is never empty; it is root, or the path minus the slash and its last segment; a path without a slash is in root |
| Sidebar.FoldersSpec | frontend/src/components/Sidebar.tsx:139-146 | the groups are exactly the folders of the project's files |
| Sidebar.FolderWitness | frontend/src/components/Sidebar.tsx:139-146 | every group key is the folder of some project file, found by index |
| Sidebar.FoldersComplete | frontend/src/components/Sidebar.tsx:139-146 | the folder of every project file is a group key |
| Sidebar.FilesInSound | frontend/src/components/Sidebar.tsx:139-146 | every file listed in a group is a project file of that folder |
| Sidebar.FilesInComplete | frontend/src/components/Sidebar.tsx:139-146 | every project file is listed in its folder's group |
| Sidebar.FilesInAppend | frontend/src/components/Sidebar.tsx:139-146 | grouping distributes over concatenation of the file list, so groups keep file order |
| Sidebar.FilesInAbsent | frontend/src/components/Sidebar.tsx:141-143 | a folder holding no file has no files |
| Sidebar.GroupByFolder | frontend/src/components/Sidebar.tsx:139-146 | the reduce yields one entry per folder holding a file, each listing that folder's files in project order |
| Sidebar.FilesByFolder | frontend/src/components/Sidebar.tsx:139-146 | with no project there are no groups; otherwise the groups are the grouping of the project's files |
| Sidebar.ToggledSpec | frontend/src/components/Sidebar.tsx:128-136 | toggling flips exactly the given folder's membership and keeps every other folder |
| Sidebar.ToggledTwice | frontend/src/components/Sidebar.tsx:128-136 | toggling the same folder twice restores the set |
| Sidebar.Explorer.constructor | frontend/src/components/Sidebar.tsx:31-34 | the explorer starts with the dialog closed, an empty name, the component kind and only root expanded |
| Sidebar.Explorer.CreateFile | frontend/src/components/Sidebar.tsx:49-68 | a blank name changes nothing; otherwise the new file is appended to the project, opened and made active, and the dialog is closed with its name cleared |
| Sidebar.Explorer.ToggleFolder | frontend/src/components/Sidebar.tsx:128-136 | the expanded set becomes the toggled set, and nothing else changes |
| Sidebar.Explorer.FileClick | frontend/src/components/Sidebar.tsx:116-119 | clicking a file makes it the only active file in the project and the editor; its tab is appended when absent and the tabs are unchanged when present; the panels and the user are untouched |
| Sidebar.Explorer.DeleteFile | frontend/src/components/Sidebar.tsx:121-126 | an unconfirmed delete changes nothing; a confirmed one removes the file and its tab, moves the active file to the first remaining tab when it was the deleted one, and does nothing without a project |
| Editor.ExtensionLanguage | frontend/src/components/Editor.tsx:88-105 | every extension maps to one of the editor's six languages, unknown ones to javascript |
| Editor.LanguageOfSpec | frontend/src/components/Editor.tsx:86-106 | the language of a dotted name is decided by the lower-cased text after its last dot alone |
| Editor.LanguageOfNoDot | frontend/src/components/Editor.tsx:87 | a name without a dot is read whole as its own extension |
| Editor.LanguageIgnoresCase | frontend/src/components/Editor.tsx:87 | every dot-free extension selects the same language as its lower-cased form |
| Editor.NewFileLanguage | frontend/src/components/Editor.tsx:86-106 | a file created from the explorer with a dot-free name opens as javascript (component or other), css (style) or json (config) |
| Editor.FindIndex | frontend/src/components/Editor.tsx:16-18 | the search stops at the first file with the id, or past the end when there is none |
| Editor.ActiveFile | frontend/src/components/Editor.tsx:16-18 | the active file is a project file with the active id, and there is none only when no project file has that id |
| Editor.ContentPatch | frontend/src/components/Editor.tsx:82 | the edit patch replaces the content and nothing else |
| Editor.EditReachesActiveFile | frontend/src/components/Editor.tsx:80-84 | an edit gives the active file the new content, keeps every other file and the file order, and the active file is still found at the same place |
| Editor.EditorChange | frontend/src/components/Editor.tsx:80-84 | with an active file and a value the store updates that file's content and stamps updatedAt; otherwise nothing changes; the editor state is kept |
| Editor.ThemeNameSpec | frontend/src/components/Editor.tsx:113-149 | two projects get the same editor theme exactly when their themes agree; no project and a fresh project get the light theme |
| Editor.FontSize | frontend/src/components/Editor.tsx:151 | the font size is never zero: the project's size when non-zero, and 14 without a project or with a zero size |
| Editor.FontSizeShown | frontend/src/components/Editor.tsx:151 | a font size the schema accepts is shown as stored, default settings show 14, and without a project 14 is used |
| Header.NextTheme | frontend/src/components/Header.tsx:82-85 | the theme toggle always picks the other theme, and light when there is no project |
| Header.ToggleThemeSpec | frontend/src/components/Header.tsx:82-85 | toggling flips the theme and the editor theme shown, keeps autosave and font size, and toggling twice restores the settings |
| Header.FontOptionsAccepted | frontend/src/components/Header.tsx:254-258 | every font size the menu offers lies in the range the schema accepts |
| Header.AutosaveCheckedSpec | frontend/src/components/Header.tsx:241-242 | no project leaves the box clear, a fresh project has it checked, and storing a choice shows exactly that choice without touching theme or font size |
| Header.TopBar.constructor | frontend/src/components/Header.tsx:33-35 | the bar starts with settings closed, an empty name and not editing |
| Header.TopBar.ProjectChanged | frontend/src/components/Header.tsx:61-65 | the name box follows the project's name when that is non-empty and is kept otherwise |
| Header.TopBar.NameChange | frontend/src/components/Header.tsx:52-58 | a non-blank name renames the project to its trimmed form and a blank one changes nothing; editing always ends |
| Header.TopBar.ToggleTheme | frontend/src/components/Header.tsx:82-85 | with a project the theme is toggled and updatedAt stamped; the editor state, the session and the users are kept |
| Header.TopBar.ExportProject | frontend/src/components/Header.tsx:87-106 | with no project there is no download; otherwise the file is named as in the project manager |
| Header.TopBar.NewProject | frontend/src/components/Header.tsx:44-50 | a confirmed new project replaces the project with a fresh default one and resets the editor; an unconfirmed one changes nothing; either way the session and the users are kept |
| Header.TopBar.SetAutosave | frontend/src/components/Header.tsx:239-244 | with a project only the autosave setting and the update time change, and the box then shows the chosen value; the editor state and the user are untouched |
| Header.TopBar.SelectFontSize | frontend/src/components/Header.tsx:249-259 | choosing a listed size sets exactly that font size, read back through parseInt, and the update time; the editor then shows it, and the editor state and the user are untouched |
| Header.RenamedNameCasts | frontend/src/components/Header.tsx:54-55 | a trimmed rename of at most 100 units is stored by the schema unchanged |
| Login.FormRegisterThenLogin | frontend/src/components/Login.tsx:31-34 | an address registered through the form logs in with the same password even when typed with other surrounding spaces, and a different password does not |
| Login.FindUserAppendMiss | frontend/src/store/projectStore.ts:556 | appending a user whose password differs does not change whom a login finds |
| Login.LoginForm.constructor | frontend/src/components/Login.tsx:8-13 | the form starts empty, in sign-in mode, idle and without an error |
| Login.LoginForm.ToggleMode | frontend/src/components/Login.tsx:73 | the mode switch flips register mode and clears the error, keeping the fields |
| Login.LoginForm.Submit | frontend/src/components/Login.tsx:15-42 | a blank email or password gives the credentials error; in register mode a blank name gives the name error; otherwise registration succeeds iff the trimmed email is free and login iff a stored user matches the trimmed email and the password, each failure showing its message and changing no users and no session; a successful registration signs in `user-<now>` with the trimmed name and email; loading always ends |
| Login.LoginForm.SignUp | frontend/src/components/Login.tsx:31-32 | registering with the trimmed email and name shows no error iff the email was free, then stores the new user and signs in as `user-<now>` with the trimmed name and email; otherwise shows the registration error and keeps the users and the session |
| Login.LoginForm.SignIn | frontend/src/components/Login.tsx:34-35 | signing in with the trimmed email shows no error iff a stored user matches it and the password, then signs that user in; otherwise shows the credentials error and keeps the session |
| JsText.TrimSpec | backend/src/middleware/validation.js:6 | `trim` yields a string no longer than its input with no whitespace at either end |
| JsText.TrimStartSpec | backend/src/middleware/validation.js:6 | the leading part `trim` removes is all whitespace, and what it keeps starts with a non-space |
| JsText.TrimEndSpec | backend/src/middleware/validation.js:6 | the trailing part `trim` removes is all whitespace, and what it keeps ends with a non-space |
| JsText.TrimEmptyIffBlank | backend/src/middleware/validation.js:6 | a string trims to empty iff it is all whitespace |
| JsText.TrimIdempotent | frontend/src/components/Header.tsx:54-55 | trimming twice is the same as trimming once |
| JsText.LastSegment | frontend/src/components/Preview.tsx:29 | `split(sep).pop()` is the longest suffix without the separator, preceded by the separator when shorter than the string |
| JsText.BeforeLastSegmentSpec | frontend/src/components/Sidebar.tsx:140 | `split(sep).slice(0, -1).join(sep)` is what precedes the last separator, so it, the separator and the last segment make up the string |
| JsText.ToLowerSpec | frontend/src/components/Editor.tsx:87 | lower-casing leaves no capital A-Z, changes no other character, fixes exactly the strings without capitals, and is idempotent |
| JsText.Utf16Length | backend/src/middleware/validation.js:13 | a string's `length` counts UTF-16 units: at least one and at most two per character |
| JsText.ReplaceSpaceRunsSpec | frontend/src/components/ProjectManager.tsx:128 | replacing whitespace runs by an underscore leaves no whitespace and keeps whitespace-free text unchanged |
| JsNumber.ParseIntDecimal | frontend/src/components/Header.tsx:251 | parseInt reads back the decimal text of a number followed by any non-digit, except an `x` or `X` after a lone `0`, which switches to base 16 |
| JsNumber.ParseIntDefaults | backend/src/routes/projects.js:244-250 | the default query values parse to 10 and 0 |
| JsNumber.ParseIntNoDigits | backend/src/routes/projects.js:249-250 | a blank string, or one starting with a character that cannot begin a number, parses to NaN |

## Left out

- `frontend/src/components/IDE.tsx`: the panel resizing is floating-point arithmetic on mouse positions, and autosave is a `setInterval` timer. It is not part of this model.
- `frontend/src/utils/api.ts` is not part of this model. Its calls appear only as abstract outcomes: an answer, an HTTP 404, or another failure.
- `backend/src/server.js`, `frontend/src/app/page.tsx`: wiring, the rate limiter, the database connection and the auth gate are not part of this model.
- The iframe's own runtime is left out: React, ReactDOM and Babel from unpkg, the error listeners, and the mount script. Only the messages it posts are modelled, as values of `PreviewStatus.PostedMessage`.
- Timers and message delivery are not scheduled. Events are applied in any order, and there is no check that a message comes from the current document, because the source has none.
- `persist`, `localStorage`, `JSON.stringify`/`parse`, `Date` and `uuid` are left out. Ids and times are parameters, and the store's user list is a field.
  - `saveProjectToStorage`, `loadProjectFromStorage` and `clearProject` only move data to and from `localStorage`, so they are not modelled.
  - Header's `handleSaveProject` only calls `saveProjectToStorage`, so it is not modelled either.
- The store's `login` and `register` wait 300 ms and catch their own errors. The wait is left out.
  - `Login.LoginForm.Submit`: the "Auth failed" branch cannot be reached through the store as written, so it is driven by the `rejected` parameter.
- The Monaco configuration and editor themes, all JSX markup, icons, the settings dropdown's outside-click handler, the Blob/URL download, the clipboard copy and `FileReader` are left out.
  - `ProjectManager.Manager.ImportProject` receives the already parsed data.
  - `confirm` is the `confirmed` parameter.
- MongoDB queries are modelled as a keyed map only. bcrypt's salt and cost are left out.
  - `ProjectRoutes.ProjectCollection.List`: returns the pagination block, not the page of projects, because sorting by `updatedAt` with `skip`/`limit` is query-engine behaviour. Of the database's refusals only a negative `skip` is modelled; what the driver does with a `NaN` limit or offset is left out.
- `ProjectRoutes.ProjectCollection.Create`, `ProjectRoutes.ProjectCollection.Update`: request bodies are typed records. Each field is absent or of the type the schema expects, and `activeFileId` may also be `null`. Some JSON that `validateProject` lets through is therefore not modelled:
  - a file whose `isActive` is not a boolean, which `find(f => f.isActive)` reads by truthiness before Mongoose casts it;
  - a falsy non-string theme (`0`, `false`, `null`);
  - settings sent as an array;
  - `null` for `name`, `files` or `settings`.
- `JsText.ToLower`, `Sidebar.StyleContentSpec`: lower-casing maps only A-Z. JavaScript's `toLowerCase` also lower-cases other letters (`Ä` becomes `ä`, and `İ` becomes two code units), so for names with such letters the editor language and the stylesheet class name are not modelled.
- `Sidebar.GroupByFolder`, `Sidebar.FilesByFolder`: the grouping is a map, so the order in which `Object.entries` lists the folders is not modelled. A folder named after a property every object inherits (`constructor`, `toString`, `__proto__`, ...) makes the source's `push` throw, which crashes the explorer; the model groups such a folder like any other.
- `PreviewStatus.PostedMessage`: the posted `error` is a string or absent. A non-string error value, which `data.error || 'unknown'` would convert to text, is not modelled.
- `ProjectSchema.CastSettingsSpec`: the schema's font size is an integer. A fractional size in 10..24, which Mongoose would accept, is not modelled.

## Findings

| source | as written | input that shows it | evidently intended | confidence | as-written member | corrected member |
|---|---|---|---|---|---|---|
| frontend/src/components/Preview.tsx:392-396 | the 8000 ms timer is cleared only when `refreshKey` changes, and its callback sets the error status whatever the current status | the iframe loads and `onLoad` sets ready, then 8 s pass with no refresh: the overlay reappears saying the preview is taking longer than expected | the slow-preview advisory replaces only a status that is still loading | not executed; likely | PreviewStatus.ReadyThenTimeoutShowsAdvisory | PreviewStatus.FixedReadyStaysReady |
| frontend/src/components/ProjectManager.tsx:172-285 | a message is styled as a success only when it contains "successfully", but the local-save message is "Project saved to local storage!" | click "Save to Local": the save succeeds and the message is shown in the failure style | every successful operation is shown in the success style | not executed; certain | ProjectManager.LocalSaveShownAsFailure | ProjectManager.StylingFixedMatchesOutcome |
