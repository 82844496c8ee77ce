/** The live preview panel: the virtual file map built from the project,
    the HTML document mounted in the sandboxed iframe, and the panel's
    loading / ready / error status. */
module Preview {
  import opened Wrappers
  import opened JsText
  import opened Model
  import opened PreviewRewrite

  // ---- The virtual file map ----

  const AppJsKey := "/src/App.js"
  const AppCssKey := "/src/App.css"
  const RootIndexKey := "/index.js"
  const SrcIndexKey := "/src/index.js"

  /** Where a project file lands in the map: `/src/` followed by the last
      `/`-segment of its path, or by its name when that segment is empty,
      or by `App.js` when the name is empty too. */
  function SourceKey(f: ProjectFile): string {
    var base := LastSegment(f.path, '/');
    "/src/" + (if base != [] then base else if f.name != [] then f.name else "App.js")
  }

  /** The key is `/src/` followed by a non-empty file name free of `/` when
      it comes from the path: the path's last segment when there is one,
      else the name, else `App.js`. */
  lemma {:induction false} SourceKeySpec(f: ProjectFile)
    ensures |SourceKey(f)| > 5 && SourceKey(f)[..5] == "/src/"
    ensures LastSegment(f.path, '/') != [] ==>
              SourceKey(f)[5..] == LastSegment(f.path, '/') && '/' !in SourceKey(f)[5..]
    ensures LastSegment(f.path, '/') == [] && f.name != [] ==> SourceKey(f)[5..] == f.name
    ensures LastSegment(f.path, '/') == [] && f.name == [] ==> SourceKey(f)[5..] == "App.js"
  {
  }

  /** The `forEach` over the project files: each file's content stored at its
      key, a later file overwriting an earlier one with the same key. */
  function CollectFiles(files: seq<ProjectFile>): map<string, string> {
    if files == [] then map[]
    else CollectFiles(files[..|files| - 1])[SourceKey(files[|files| - 1]) := files[|files| - 1].content]
  }

  /** Every key of the map is some file's key. */
  lemma {:induction false} CollectFilesKeysFromFiles(files: seq<ProjectFile>, k: string)
    requires k in CollectFiles(files)
    ensures exists i :: 0 <= i < |files| && SourceKey(files[i]) == k
  {
    var last := |files| - 1;
    if k != SourceKey(files[last]) {
      var init := files[..last];
      CollectFilesKeysFromFiles(init, k);
      var i :| 0 <= i < |init| && SourceKey(init[i]) == k;
      assert files[i] == init[i];
    }
  }

  /** Every file's key is a key of the map. */
  lemma {:induction false} CollectFilesHasKey(files: seq<ProjectFile>, i: int)
    requires 0 <= i < |files|
    ensures SourceKey(files[i]) in CollectFiles(files)
  {
    if i < |files| - 1 {
      var init := files[..|files| - 1];
      assert init[i] == files[i];
      CollectFilesHasKey(init, i);
    }
  }

  /** A key holds the content of the last file that has it: later files
      overwrite earlier ones. */
  lemma {:induction false} CollectFilesLastWins(files: seq<ProjectFile>, i: int)
    requires 0 <= i < |files|
    requires forall j :: i < j < |files| ==> SourceKey(files[j]) != SourceKey(files[i])
    ensures SourceKey(files[i]) in CollectFiles(files)
    ensures CollectFiles(files)[SourceKey(files[i])] == files[i].content
  {
    if i < |files| - 1 {
      var init := files[..|files| - 1];
      assert init[i] == files[i];
      CollectFilesLastWins(init, i);
    }
  }

  /** `files.find(f => f.name === name)`. */
  function FindByName(files: seq<ProjectFile>, name: string): Option<ProjectFile> {
    if files == [] then None
    else if files[0].name == name then Some(files[0])
    else FindByName(files[1..], name)
  }

  /** `find` yields the first file with the name, and nothing only when no
      file has it. */
  lemma {:induction false} FindByNameSpec(files: seq<ProjectFile>, name: string)
    ensures FindByName(files, name).Some? ==>
              exists i :: 0 <= i < |files| && files[i] == FindByName(files, name).value
                          && files[i].name == name && forall j :: 0 <= j < i ==> files[j].name != name
    ensures FindByName(files, name).None? ==> forall i :: 0 <= i < |files| ==> files[i].name != name
  {
    if files != [] && files[0].name != name {
      FindByNameSpec(files[1..], name);
      var r := FindByName(files[1..], name);
      if r.Some? {
        var i :| 0 <= i < |files[1..]| && files[1..][i] == r.value && files[1..][i].name == name
                 && forall j :: 0 <= j < i ==> files[1..][j].name != name;
        assert files[i + 1] == r.value;
        assert forall j :: 0 < j < i + 1 ==> files[j] == files[1..][j - 1];
      } else {
        assert forall i :: 0 < i < |files| ==> files[i] == files[1..][i - 1];
      }
    }
  }

  /** `find(f => f.name === name)?.content || builtin`. */
  function FallbackContent(files: seq<ProjectFile>, name: string, builtin: string): string {
    var f := FindByName(files, name);
    if f.Some? && f.value.content != [] then f.value.content else builtin
  }

  /** `if (!files[key]) files[key] = fallback`. */
  function FillIfEmpty(m: map<string, string>, key: string, fallback: string): map<string, string> {
    if key in m && m[key] != [] then m else m[key := fallback]
  }

  /** The fixed texts of the preview: the welcome App.js and App.css, the
      two entry points, and the three pieces of the HTML document around the
      stylesheet and the script. The panel uses `Stock`, which
      `StockWellFormed` shows to be well formed; the properties
      below hold for any texts whose welcome files are non-empty. */
  datatype Builtins = Builtins(
    appJs: string, appCss: string, rootIndex: string, srcIndex: string,
    head: string, middle: string, tail: string)

  const Stock := Builtins(WelcomeAppJs, WelcomeAppCss, RootIndexJs, SrcIndexJs, HtmlHead, HtmlMiddle, HtmlTail)

  predicate WellFormed(b: Builtins) {
    b.appJs != [] && b.appCss != []
  }

  /** The texts the panel embeds meet `WellFormed`: both welcome files are
      non-empty. */
  lemma StockWellFormed()
    ensures WellFormed(Stock)
  {
    WelcomeTextsNonEmpty();
  }

  /** The `sandpackFiles` memo: empty without a project. */
  function SandpackFiles(project: Option<Project>, b: Builtins): map<string, string> {
    if project.None? then map[]
    else
      var files := project.value.files;
      var m := CollectFiles(files);
      var m1 := FillIfEmpty(m, AppJsKey, FallbackContent(files, "App.js", b.appJs));
      var m2 := FillIfEmpty(m1, AppCssKey, FallbackContent(files, "App.css", b.appCss));
      m2[RootIndexKey := b.rootIndex][SrcIndexKey := b.srcIndex]
  }

  /** The loop of the memo: each file, in order, writes its content under
      its key, so a later file overwrites an earlier one with the same key. */
  method CollectFilesLoop(all: seq<ProjectFile>) returns (files: map<string, string>)
    ensures files == CollectFiles(all)
  {
    files := map[];
    var i := 0;
    while i < |all|
      invariant 0 <= i <= |all|
      invariant files == CollectFiles(all[..i])
    {
      var file := all[i];
      assert all[..i + 1][..i] == all[..i];
      files := files[SourceKey(file) := file.content];
      i := i + 1;
    }
    assert all[..|all|] == all;
  }

  /** The memo as written: the loop over the files, then the fallbacks and
      the two entry points. */
  method BuildSandpackFiles(project: Option<Project>, b: Builtins) returns (files: map<string, string>)
    ensures files == SandpackFiles(project, b)
  {
    if project.None? {
      return map[];
    }
    var all := project.value.files;
    files := CollectFilesLoop(all);
    files := FillIfEmpty(files, AppJsKey, FallbackContent(all, "App.js", b.appJs));
    files := FillIfEmpty(files, AppCssKey, FallbackContent(all, "App.css", b.appCss));
    files := files[RootIndexKey := b.rootIndex];
    files := files[SrcIndexKey := b.srcIndex];
  }

  /** With a project the map always holds the four entries; a non-empty
      App.js or App.css collected from the files is kept verbatim, a missing
      or empty one is replaced by the first file named so when its content is
      non-empty and by the welcome text otherwise; the entry points are the
      fixed texts; every other key holds what the files put there. */
  lemma {:induction false} SandpackFilesSpec(project: Option<Project>, b: Builtins)
    requires WellFormed(b)
    ensures project.None? ==> SandpackFiles(project, b) == map[]
    ensures project.Some? ==>
              var m := CollectFiles(project.value.files);
              var r := SandpackFiles(project, b);
              && AppJsKey in r && AppCssKey in r && RootIndexKey in r && SrcIndexKey in r
              && r[AppJsKey] != [] && r[AppCssKey] != []
              && (AppJsKey in m && m[AppJsKey] != [] ==> r[AppJsKey] == m[AppJsKey])
              && (!(AppJsKey in m && m[AppJsKey] != []) ==>
                    r[AppJsKey] == FallbackContent(project.value.files, "App.js", b.appJs))
              && (AppCssKey in m && m[AppCssKey] != [] ==> r[AppCssKey] == m[AppCssKey])
              && (!(AppCssKey in m && m[AppCssKey] != []) ==>
                    r[AppCssKey] == FallbackContent(project.value.files, "App.css", b.appCss))
              && r[RootIndexKey] == b.rootIndex && r[SrcIndexKey] == b.srcIndex
              && r.Keys == m.Keys + {AppJsKey, AppCssKey, RootIndexKey, SrcIndexKey}
              && (forall k :: k in m && k !in {AppJsKey, AppCssKey, RootIndexKey, SrcIndexKey} ==> r[k] == m[k])
  {
    if project.Some? {
      var files := project.value.files;
      FallbackContentSpec(files, "App.js", b.appJs);
      FallbackContentSpec(files, "App.css", b.appCss);
      FilledShape(CollectFiles(files), FallbackContent(files, "App.js", b.appJs),
                  FallbackContent(files, "App.css", b.appCss), b);
    }
  }

  /** The last four steps of the memo on any collected map `m`. */
  lemma {:induction false} FilledShape(m: map<string, string>, js: string, css: string, b: Builtins)
    requires js != [] && css != []
    ensures var r := FillIfEmpty(FillIfEmpty(m, AppJsKey, js), AppCssKey, css)
                       [RootIndexKey := b.rootIndex][SrcIndexKey := b.srcIndex];
            && AppJsKey in r && AppCssKey in r && RootIndexKey in r && SrcIndexKey in r
            && r[AppJsKey] != [] && r[AppCssKey] != []
            && (AppJsKey in m && m[AppJsKey] != [] ==> r[AppJsKey] == m[AppJsKey])
            && (!(AppJsKey in m && m[AppJsKey] != []) ==> r[AppJsKey] == js)
            && (AppCssKey in m && m[AppCssKey] != [] ==> r[AppCssKey] == m[AppCssKey])
            && (!(AppCssKey in m && m[AppCssKey] != []) ==> r[AppCssKey] == css)
            && r[RootIndexKey] == b.rootIndex && r[SrcIndexKey] == b.srcIndex
            && r.Keys == m.Keys + {AppJsKey, AppCssKey, RootIndexKey, SrcIndexKey}
            && (forall k :: k in m && k !in {AppJsKey, AppCssKey, RootIndexKey, SrcIndexKey} ==> r[k] == m[k])
  {
    assert |AppJsKey| == 11 && |AppCssKey| == 12 && |RootIndexKey| == 9 && |SrcIndexKey| == 13;
    var m1 := FillIfEmpty(m, AppJsKey, js);
    FillIfEmptySpec(m, AppJsKey, js);
    FillIfEmptySpec(m1, AppCssKey, css);
  }

  /** Filling a key keeps a non-empty entry and otherwise stores the
      fallback; every other entry stays. */
  lemma {:induction false} FillIfEmptySpec(m: map<string, string>, key: string, fallback: string)
    requires fallback != []
    ensures var r := FillIfEmpty(m, key, fallback);
            && key in r && r[key] != []
            && (key in m && m[key] != [] ==> r[key] == m[key])
            && (!(key in m && m[key] != []) ==> r[key] == fallback)
            && r.Keys == m.Keys + {key}
            && (forall k :: k in m && k != key ==> r[k] == m[k])
  {
  }

  /** The fallback text is never empty: a named file's empty content also
      falls through to the welcome text. */
  lemma {:induction false} FallbackContentSpec(files: seq<ProjectFile>, name: string, builtin: string)
    requires builtin != []
    ensures FallbackContent(files, name, builtin) != []
    ensures (forall i :: 0 <= i < |files| && files[i].name == name ==> files[i].content == []) ==>
              FallbackContent(files, name, builtin) == builtin
  {
    FindByNameSpec(files, name);
    var f := FindByName(files, name);
    if f.Some? {
      var i :| 0 <= i < |files| && files[i] == f.value && files[i].name == name
               && forall j :: 0 <= j < i ==> files[j].name != name;
    }
  }

  const RootIndexJs: string :=
    "import React from 'react';\n" +
    "import ReactDOM from 'react-dom/client';\n" +
    "import App from './src/App';\n" +
    "import './src/App.css';\n" +
    "\n" +
    "const root = ReactDOM.createRoot(document.getElementById('root'));\n" +
    "root.render(\n" +
    "  <React.StrictMode>\n" +
    "    <App />\n" +
    "  </React.StrictMode>\n" +
    ");"

  const SrcIndexJs: string :=
    "import React from 'react';\n" +
    "import ReactDOM from 'react-dom/client';\n" +
    "import App from './App';\n" +
    "import './App.css';\n" +
    "\n" +
    "const root = ReactDOM.createRoot(document.getElementById('root'));\n" +
    "root.render(\n" +
    "  <React.StrictMode>\n" +
    "    <App />\n" +
    "  </React.StrictMode>\n" +
    ");"


  // ---- The document mounted in the iframe ----

  const HtmlHead: string :=
    "<!doctype html>\n" +
    "<html>\n" +
    "  <head>\n" +
    "    <meta charset=\"utf-8\" />\n" +
    "    <meta name=\"viewport\" content=\"width=device-width, initial-scale=1\" />\n" +
    "    <style>html,body,#root{height:100%;margin:0} body{background:#0b1220;color:#e6eef8;font-family:Inter, ui-sans-serif, system-ui, -apple-system, 'Segoe UI', Roboto, 'Helvetica Neue', Arial;} "

  const HtmlMiddle: string :=
    "</style>\n" +
    "  </head>\n" +
    "  <body>\n" +
    "    <div id=\"root\"></div>\n" +
    "    <div id=\"__preview_error\" style=\"display:none;position:fixed;inset:10px;padding:12px;border-radius:8px;background:#2b0f0f;color:#ffd2d2;z-index:99999;overflow:auto;max-height:calc(100% - 20px)\"></div>\n" +
    "    <script crossorigin src=\"https://unpkg.com/react@18/umd/react.development.js\"></script>\n" +
    "    <script crossorigin src=\"https://unpkg.com/react-dom@18/umd/react-dom.development.js\"></script>\n" +
    "    <script src=\"https://unpkg.com/@babel/standalone/babel.min.js\"></script>\n" +
    "    <script>\n" +
    "      // Global error handlers to show errors in the preview itself for easier debugging on mobile\n" +
    "      function showPreviewError(msg){\n" +
    "        try{\n" +
    "          const el = document.getElementById('__preview_error')\n" +
    "          el.style.display = 'block'\n" +
    "          el.textContent = msg\n" +
    "        }catch(e){ console.error(e) }\n" +
    "      }\n" +
    "      window.addEventListener('error', function(e){\n" +
    "        console.error('Preview runtime error', e.error || e.message)\n" +
    "        showPreviewError('Runtime error: ' + (e.error?.stack || e.message || e.error))\n" +
    "      })\n" +
    "      window.addEventListener('unhandledrejection', function(e){\n" +
    "        console.error('Unhandled rejection', e.reason)\n" +
    "        showPreviewError('Unhandled rejection: ' + (e.reason?.stack || e.reason))\n" +
    "      })\n" +
    "    </script>\n" +
    "    <script type=\"text/babel\">\n"

  const HtmlTail: string :=
    "\n" +
    "\n" +
    "try {\n" +
    "  const root = ReactDOM.createRoot(document.getElementById('root'));\n" +
    "  if (typeof App === 'function') {\n" +
    "    root.render(React.createElement(App));\n" +
    "  } else if (typeof exports !== 'undefined' && exports.default) {\n" +
    "    root.render(React.createElement(exports.default));\n" +
    "  } else {\n" +
    "    // If nothing to render, show a helpful message\n" +
    "    root.render(React.createElement('div', {style:{padding:20}}, 'No renderable App found'))\n" +
    "  }\n" +
    "  // Notify parent that preview is ready\n" +
    "  try { window.parent.postMessage({ type: 'preview-ready' }, '*') } catch(e){}\n" +
    "} catch (err) {\n" +
    "  console.error('Preview mount error:', err)\n" +
    "  try { document.getElementById('__preview_error').textContent = 'Preview mount error: ' + (err.stack || err.message) } catch(e){}\n" +
    "  try { window.parent.postMessage({ type: 'preview-error', error: (err && (err.stack || err.message)) || String(err) }, '*') } catch(e){}\n" +
    "}\n" +
    "    </script>\n" +
    "  </body>\n" +
    "</html>"

  /** The `iframeHtml` memo: empty without a project; otherwise the base
      document with App.css in the style element and the rewritten App.js
      in the Babel script. */
  function IframeHtml(project: Option<Project>, b: Builtins): string {
    if project.None? then []
    else
      var files := SandpackFiles(project, b);
      var appCss := if AppCssKey in files then files[AppCssKey] else [];
      var rawAppJs := if AppJsKey in files && files[AppJsKey] != [] then files[AppJsKey]
                      else if SrcIndexKey in files then files[SrcIndexKey] else [];
      b.head + appCss + b.middle + SafeAppJs(StripModuleSyntax(rawAppJs)) + b.tail
  }

  /** The stylesheet and the script that the document embeds. */
  function EmbeddedCss(project: Project, b: Builtins): string
    requires WellFormed(b)
  {
    SandpackFilesSpec(Some(project), b);
    SandpackFiles(Some(project), b)[AppCssKey]
  }

  function EmbeddedScript(project: Project, b: Builtins): string
    requires WellFormed(b)
  {
    SandpackFilesSpec(Some(project), b);
    SafeAppJs(StripModuleSyntax(SandpackFiles(Some(project), b)[AppJsKey]))
  }

  /** The document holds the map's App.css verbatim right after the base
      styles and the rewritten App.js verbatim in the script element; the
      index.js fallback of `rawAppJs` is never taken because App.js is never
      empty; and the embedded script is never blank. */
  lemma {:induction false} IframeHtmlSpec(project: Project, b: Builtins)
    requires WellFormed(b)
    ensures OccursAt(IframeHtml(Some(project), b), EmbeddedCss(project, b), |b.head|)
    ensures OccursAt(IframeHtml(Some(project), b), EmbeddedScript(project, b),
                     |b.head| + |EmbeddedCss(project, b)| + |b.middle|)
    ensures |IframeHtml(Some(project), b)| ==
              |b.head| + |EmbeddedCss(project, b)| + |b.middle| + |EmbeddedScript(project, b)| + |b.tail|
    ensures !IsBlank(EmbeddedScript(project, b))
  {
    IframeHtmlParts(project, b);
    var css := EmbeddedCss(project, b);
    var js := EmbeddedScript(project, b);
    Slots(b.head, css, b.middle, js, b.tail);
  }

  /** The document is the head, the stylesheet, the middle, the script and
      the tail, in that order. */
  lemma {:induction false} IframeHtmlParts(project: Project, b: Builtins)
    requires WellFormed(b)
    ensures IframeHtml(Some(project), b) == b.head + EmbeddedCss(project, b) + b.middle + EmbeddedScript(project, b) + b.tail
    ensures !IsBlank(EmbeddedScript(project, b))
  {
    SandpackFilesSpec(Some(project), b);
  }

  /** Where the two slots of a five-piece text sit. */
  lemma {:induction false} Slots(head: string, css: string, middle: string, js: string, tail: string)
    ensures OccursAt(head + css + middle + js + tail, css, |head|)
    ensures OccursAt(head + css + middle + js + tail, js, |head| + |css| + |middle|)
  {
    var html := head + css + middle + js + tail;
    assert html[|head|..|head| + |css|] == css;
    var k := |head| + |css| + |middle|;
    assert html[k..k + |js|] == js;
  }

  /** A project App.js without any `import` or `export` (in any case) that
      is not blank reaches the document unchanged. */
  lemma {:induction false} PlainAppJsEmbeddedVerbatim(project: Project, b: Builtins)
    requires WellFormed(b)
    requires var m := CollectFiles(project.files); AppJsKey in m && !IsBlank(m[AppJsKey])
    requires var s := CollectFiles(project.files)[AppJsKey];
             (forall a :: 0 <= a <= |s| ==> !WordAt(s, a, "import"))
             && (forall a :: 0 <= a <= |s| ==> !WordAtIgnoringCase(s, a, "export"))
    ensures EmbeddedScript(project, b) == CollectFiles(project.files)[AppJsKey]
  {
    SandpackFilesSpec(Some(project), b);
    var s := CollectFiles(project.files)[AppJsKey];
    StripModuleSyntaxKeepsPlainText(s);
  }

  /** With the panel's own texts, a project always yields the four entries
      of the map, with non-empty App.js and App.css and the fixed entry
      points. */
  lemma {:induction false} StockSandpackFiles(project: Project)
    ensures var r := SandpackFiles(Some(project), Stock);
            && AppJsKey in r && AppCssKey in r && RootIndexKey in r && SrcIndexKey in r
            && r[AppJsKey] != [] && r[AppCssKey] != []
            && r[RootIndexKey] == RootIndexJs && r[SrcIndexKey] == SrcIndexJs
  {
    StockWellFormed();
    SandpackFilesSpec(Some(project), Stock);
  }

  /** With the panel's own texts, the document is the fixed head, the
      stylesheet, the fixed middle, the script and the fixed tail, and the
      script is never blank. */
  lemma {:induction false} StockIframeHtml(project: Project)
    ensures WellFormed(Stock)
    ensures IframeHtml(Some(project), Stock)
              == HtmlHead + EmbeddedCss(project, Stock) + HtmlMiddle + EmbeddedScript(project, Stock) + HtmlTail
    ensures !IsBlank(EmbeddedScript(project, Stock))
  {
    StockWellFormed();
    IframeHtmlParts(project, Stock);
  }

  /** Without a project the panel has neither files nor a document. */
  lemma {:induction false} NoProjectNoPreview()
    ensures forall b :: SandpackFiles(None, b) == map[] && IframeHtml(None, b) == []
  {
  }

  // ---- Device frame ----

  datatype Device = Desktop | Tablet | Mobile

  /** The frame width: full width on a desktop, 768px on a tablet, 412px on
      a phone, and full width on a screen narrower than 640px whatever the
      chosen device. */
  function FrameWidth(device: Device, smallScreen: bool): (r: string)
    ensures smallScreen ==> r == "100%"
    ensures !smallScreen ==> (r == "100%" <==> device == Desktop)
    ensures !smallScreen && device == Tablet ==> r == "768px"
    ensures !smallScreen && device == Mobile ==> r == "412px"
  {
    var deviceWidth := if device == Desktop then "100%" else if device == Tablet then "768px" else "412px";
    if smallScreen then "100%" else deviceWidth
  }

  /** `onResize`: a window narrower than 640px marks the screen small and
      switches to the phone frame; a wider one keeps the chosen device. */
  function OnResize(device: Device, innerWidth: int): (r: (bool, Device))
    ensures r.0 <==> innerWidth < 640
    ensures r.0 ==> r.1 == Mobile
    ensures !r.0 ==> r.1 == device
  {
    if innerWidth < 640 then (true, Mobile) else (false, device)
  }

  /** After a resize the frame fills a window narrower than 640px whatever
      device had been chosen, and a wider window shows the chosen device
      as before; a second resize to the same width changes nothing. */
  lemma {:induction false} ResizeFrameSpec(device: Device, innerWidth: int)
    ensures var (small, d) := OnResize(device, innerWidth);
            innerWidth < 640 ==> FrameWidth(d, small) == "100%" && d == Mobile
    ensures var (small, d) := OnResize(device, innerWidth);
            innerWidth >= 640 ==> FrameWidth(d, small) == FrameWidth(device, false)
    ensures var (small, d) := OnResize(device, innerWidth);
            OnResize(d, innerWidth) == (small, d)
    ensures FrameWidth(Tablet, false) != FrameWidth(Mobile, false)
  {
  }
}
