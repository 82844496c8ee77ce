/** The project document shared by the client store, the editor, the
    sidebar and the preview: files, settings and the editor's view state,
    and the default project a fresh session starts with. */
module Model {
  import opened Wrappers

  /** The four advisory kinds of file. */
  datatype FileType = Component | Style | Config | Other

  datatype Theme = Light | Dark

  /** One virtual file. The optional `isOpen`/`isActive` flags of the
      client type read as `false` when absent. */
  datatype ProjectFile = ProjectFile(
    id: string,
    name: string,
    content: string,
    kind: FileType,
    path: string,
    isOpen: bool,
    isActive: bool)

  datatype Settings = Settings(theme: Theme, autosave: bool, fontSize: int)

  /** A project; dates are milliseconds since the epoch. */
  datatype Project = Project(
    id: string,
    name: string,
    files: seq<ProjectFile>,
    activeFileId: Option<string>,
    createdAt: int,
    updatedAt: int,
    settings: Settings)

  datatype EditorState = EditorState(
    activeFileId: Option<string>,
    openFiles: seq<string>,
    sidebarCollapsed: bool,
    previewVisible: bool)

  /** A partial file, as `updateFile` merges it with `{ ...file, ...updates }`:
      a present key replaces the file's own. */
  datatype FilePatch = FilePatch(
    id: Option<string>,
    name: Option<string>,
    content: Option<string>,
    kind: Option<FileType>,
    path: Option<string>,
    isOpen: Option<bool>,
    isActive: Option<bool>)

  /** A partial settings object, as `updateSettings` receives it. */
  datatype SettingsPatch = SettingsPatch(theme: Option<Theme>, autosave: Option<bool>, fontSize: Option<int>)

  const NoFileChanges := FilePatch(None, None, None, None, None, None, None)
  const NoSettingsChanges := SettingsPatch(None, None, None)

  /** `{ ...file, ...updates }`. */
  function PatchFile(f: ProjectFile, u: FilePatch): (r: ProjectFile)
    ensures u == NoFileChanges ==> r == f
  {
    ProjectFile(OrElse(u.id, f.id), OrElse(u.name, f.name), OrElse(u.content, f.content),
                OrElse(u.kind, f.kind), OrElse(u.path, f.path),
                OrElse(u.isOpen, f.isOpen), OrElse(u.isActive, f.isActive))
  }

  /** `{ ...settings, ...patch }`. */
  function PatchSettings(s: Settings, p: SettingsPatch): (r: Settings)
    ensures p == NoSettingsChanges ==> r == s
  {
    Settings(OrElse(p.theme, s.theme), OrElse(p.autosave, s.autosave), OrElse(p.fontSize, s.fontSize))
  }

  /** Merging overrides exactly the supplied keys, and merging the same
      patch twice is merging it once. */
  lemma {:induction false} PatchSettingsSpec(s: Settings, p: SettingsPatch)
    ensures PatchSettings(s, p).theme == (if p.theme.Some? then p.theme.value else s.theme)
    ensures PatchSettings(s, p).autosave == (if p.autosave.Some? then p.autosave.value else s.autosave)
    ensures PatchSettings(s, p).fontSize == (if p.fontSize.Some? then p.fontSize.value else s.fontSize)
    ensures PatchSettings(PatchSettings(s, p), p) == PatchSettings(s, p)
  {
  }

  const DefaultSettings := Settings(Light, true, 14)

  const AppJsFile := ProjectFile("app-js", "App.js", WelcomeAppJs, Component, "/App.js", true, true)
  const AppCssFile := ProjectFile("app-css", "App.css", WelcomeAppCss, Style, "/App.css", false, false)

  /** The project a fresh session starts with (its dates are stamped by the
      caller: `new Date()` at load time). */
  function DefaultProject(now: int): Project {
    Project("default", "Untitled Project", [AppJsFile, AppCssFile], Some("app-js"), now, now, DefaultSettings)
  }

  const DefaultEditorState := EditorState(Some("app-js"), ["app-js"], false, true)

  /** The welcome component and stylesheet that the default project holds
      and that the preview falls back to. */
  /** Neither welcome text is empty. */
  lemma WelcomeTextsNonEmpty()
    ensures WelcomeAppJs != [] && WelcomeAppCss != []
  {
    assert |WelcomeAppJs| > 0;
    assert |WelcomeAppCss| > 0;
  }

  const WelcomeAppJs: string :=
    "import React from 'react';\n" +
    "import './App.css';\n" +
    "\n" +
    "function App() {\n" +
    "  return (\n" +
    "    <div className=\"App\">\n" +
    "      <header className=\"App-header\">\n" +
    "        <h1>Welcome to CipherStudio!</h1>\n" +
    "        <p>Start editing your React components here.</p>\n" +
    "        <div className=\"button-container\">\n" +
    "          <button \n" +
    "            onClick={() => alert('Hello from CipherStudio!')}\n" +
    "            className=\"primary-button\"\n" +
    "          >\n" +
    "            Click me!\n" +
    "          </button>\n" +
    "          <button \n" +
    "            onClick={() => alert('Mobile responsive!')}\n" +
    "            className=\"secondary-button\"\n" +
    "          >\n" +
    "            Test Mobile\n" +
    "          </button>\n" +
    "        </div>\n" +
    "        <div className=\"features\">\n" +
    "          <div className=\"feature-card\">\n" +
    "            <h3>\U{1F4F1} Mobile Responsive</h3>\n" +
    "            <p>Works on all devices</p>\n" +
    "          </div>\n" +
    "          <div className=\"feature-card\">\n" +
    "            <h3>\U{26A1} Live Preview</h3>\n" +
    "            <p>See changes instantly</p>\n" +
    "          </div>\n" +
    "          <div className=\"feature-card\">\n" +
    "            <h3>\U{1F3A8} Modern UI</h3>\n" +
    "            <p>Beautiful interface</p>\n" +
    "          </div>\n" +
    "        </div>\n" +
    "      </header>\n" +
    "    </div>\n" +
    "  );\n" +
    "}\n" +
    "\n" +
    "export default App;"

  const WelcomeAppCss: string :=
    ".App {\n" +
    "  text-align: center;\n" +
    "  font-family: -apple-system, BlinkMacSystemFont, 'Segoe UI', 'Roboto', sans-serif;\n" +
    "}\n" +
    "\n" +
    ".App-header {\n" +
    "  background: linear-gradient(135deg, #667eea 0%, #764ba2 100%);\n" +
    "  padding: 20px;\n" +
    "  color: white;\n" +
    "  min-height: 100vh;\n" +
    "  display: flex;\n" +
    "  flex-direction: column;\n" +
    "  align-items: center;\n" +
    "  justify-content: center;\n" +
    "  font-size: calc(10px + 2vmin);\n" +
    "}\n" +
    "\n" +
    ".App-header h1 {\n" +
    "  margin-bottom: 20px;\n" +
    "  color: #ffffff;\n" +
    "  font-size: clamp(2rem, 5vw, 4rem);\n" +
    "  font-weight: 700;\n" +
    "  text-shadow: 0 2px 4px rgba(0,0,0,0.3);\n" +
    "}\n" +
    "\n" +
    ".App-header p {\n" +
    "  margin-bottom: 30px;\n" +
    "  font-size: clamp(1rem, 3vw, 1.5rem);\n" +
    "  opacity: 0.9;\n" +
    "  max-width: 600px;\n" +
    "  line-height: 1.6;\n" +
    "}\n" +
    "\n" +
    ".button-container {\n" +
    "  display: flex;\n" +
    "  gap: 15px;\n" +
    "  margin-bottom: 40px;\n" +
    "  flex-wrap: wrap;\n" +
    "  justify-content: center;\n" +
    "}\n" +
    "\n" +
    ".primary-button, .secondary-button {\n" +
    "  padding: 12px 24px;\n" +
    "  font-size: 16px;\n" +
    "  border: none;\n" +
    "  border-radius: 8px;\n" +
    "  cursor: pointer;\n" +
    "  font-weight: 600;\n" +
    "  transition: all 0.3s ease;\n" +
    "  min-width: 120px;\n" +
    "}\n" +
    "\n" +
    ".primary-button {\n" +
    "  background-color: #007bff;\n" +
    "  color: white;\n" +
    "}\n" +
    "\n" +
    ".primary-button:hover {\n" +
    "  background-color: #0056b3;\n" +
    "  transform: translateY(-2px);\n" +
    "  box-shadow: 0 4px 12px rgba(0, 123, 255, 0.3);\n" +
    "}\n" +
    "\n" +
    ".secondary-button {\n" +
    "  background-color: transparent;\n" +
    "  color: white;\n" +
    "  border: 2px solid white;\n" +
    "}\n" +
    "\n" +
    ".secondary-button:hover {\n" +
    "  background-color: white;\n" +
    "  color: #667eea;\n" +
    "  transform: translateY(-2px);\n" +
    "  box-shadow: 0 4px 12px rgba(255, 255, 255, 0.3);\n" +
    "}\n" +
    "\n" +
    ".features {\n" +
    "  display: grid;\n" +
    "  grid-template-columns: repeat(auto-fit, minmax(250px, 1fr));\n" +
    "  gap: 20px;\n" +
    "  max-width: 800px;\n" +
    "  width: 100%;\n" +
    "  margin-top: 20px;\n" +
    "}\n" +
    "\n" +
    ".feature-card {\n" +
    "  background: rgba(255, 255, 255, 0.1);\n" +
    "  padding: 20px;\n" +
    "  border-radius: 12px;\n" +
    "  backdrop-filter: blur(10px);\n" +
    "  border: 1px solid rgba(255, 255, 255, 0.2);\n" +
    "  transition: all 0.3s ease;\n" +
    "}\n" +
    "\n" +
    ".feature-card:hover {\n" +
    "  transform: translateY(-5px);\n" +
    "  background: rgba(255, 255, 255, 0.15);\n" +
    "  box-shadow: 0 8px 25px rgba(0, 0, 0, 0.2);\n" +
    "}\n" +
    "\n" +
    ".feature-card h3 {\n" +
    "  margin: 0 0 10px 0;\n" +
    "  font-size: 1.2rem;\n" +
    "  color: #ffffff;\n" +
    "}\n" +
    "\n" +
    ".feature-card p {\n" +
    "  margin: 0;\n" +
    "  font-size: 0.9rem;\n" +
    "  opacity: 0.8;\n" +
    "}\n" +
    "\n" +
    "/* Mobile Responsive Design */\n" +
    "@media (max-width: 768px) {\n" +
    "  .App-header {\n" +
    "    padding: 15px;\n" +
    "  }\n" +
    "  \n" +
    "  .App-header h1 {\n" +
    "    font-size: 2.5rem;\n" +
    "    margin-bottom: 15px;\n" +
    "  }\n" +
    "  \n" +
    "  .App-header p {\n" +
    "    font-size: 1.1rem;\n" +
    "    margin-bottom: 25px;\n" +
    "    padding: 0 10px;\n" +
    "  }\n" +
    "  \n" +
    "  .button-container {\n" +
    "    flex-direction: column;\n" +
    "    align-items: center;\n" +
    "    gap: 10px;\n" +
    "    margin-bottom: 30px;\n" +
    "  }\n" +
    "  \n" +
    "  .primary-button, .secondary-button {\n" +
    "    width: 200px;\n" +
    "    padding: 14px 20px;\n" +
    "  }\n" +
    "  \n" +
    "  .features {\n" +
    "    grid-template-columns: 1fr;\n" +
    "    gap: 15px;\n" +
    "    padding: 0 10px;\n" +
    "  }\n" +
    "  \n" +
    "  .feature-card {\n" +
    "    padding: 15px;\n" +
    "  }\n" +
    "  \n" +
    "  .feature-card h3 {\n" +
    "    font-size: 1.1rem;\n" +
    "  }\n" +
    "}\n" +
    "\n" +
    "@media (max-width: 480px) {\n" +
    "  .App-header {\n" +
    "    padding: 10px;\n" +
    "  }\n" +
    "  \n" +
    "  .App-header h1 {\n" +
    "    font-size: 2rem;\n" +
    "  }\n" +
    "  \n" +
    "  .App-header p {\n" +
    "    font-size: 1rem;\n" +
    "  }\n" +
    "  \n" +
    "  .primary-button, .secondary-button {\n" +
    "    width: 180px;\n" +
    "    padding: 12px 16px;\n" +
    "    font-size: 14px;\n" +
    "  }\n" +
    "  \n" +
    "  .features {\n" +
    "    padding: 0 5px;\n" +
    "  }\n" +
    "  \n" +
    "  .feature-card {\n" +
    "    padding: 12px;\n" +
    "  }\n" +
    "}"
}
