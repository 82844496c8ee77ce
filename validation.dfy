/** The `validateProject` middleware guarding POST and PUT of projects:
    ordered guard checks on the request body whose first failure alone
    decides a single 400 answer; `next()` runs only when every check that
    applies passes. */
module Validation {
  import opened JsValues
  import opened JsText

  /** What the middleware does with a request. `ServerError` is the
      Express error handler's 500 for the TypeError thrown when an element
      of `files` is `null` or `undefined`. */
  datatype Verdict = CallNext | BadRequest(message: string) | ServerError

  /** The verdict on one group of fields, or on one file. */
  datatype Check = Pass | Fail(message: string) | Crash

  const NameMessage := "Project name must be a non-empty string"
  const NameLengthMessage := "Project name must be less than 100 characters"
  const FilesMessage := "Files must be an array"
  const FileIdMessage := "Each file must have a valid id"
  const FileNameMessage := "Each file must have a valid name"
  const FilePathMessage := "Each file must have a valid path"
  const FileTypeMessage := "File type must be one of: component, style, config, other"
  const FileContentMessage := "File content must be a string"
  const SettingsMessage := "Settings must be an object"
  const ThemeMessage := "Theme must be either \"light\" or \"dark\""
  const AutosaveMessage := "Autosave must be a boolean"
  const FontSizeMessage := "Font size must be a number between 10 and 24"

  /** Longest accepted project name, in UTF-16 code units. */
  const MaxNameLength := 100

  predicate IsFileType(v: JsValue) {
    v == Str("component") || v == Str("style") || v == Str("config") || v == Str("other")
  }

  predicate IsTheme(v: JsValue) {
    v == Str("light") || v == Str("dark")
  }

  // ---- The checks, in the order the middleware runs them ----

  function CheckName(name: JsValue): Check {
    if name == Undefined then Pass
    else if !name.Str? || Trim(name.s) == [] then Fail(NameMessage)
    else if Utf16Length(name.s) > MaxNameLength then Fail(NameLengthMessage)
    else Pass
  }

  function CheckFile(file: JsValue): Check {
    if file.Null? || file.Undefined? then Crash
    else if !IsNonEmptyString(Get(file, "id")) then Fail(FileIdMessage)
    else if !IsNonEmptyString(Get(file, "name")) then Fail(FileNameMessage)
    else if !IsNonEmptyString(Get(file, "path")) then Fail(FilePathMessage)
    else if Truthy(Get(file, "type")) && !IsFileType(Get(file, "type")) then Fail(FileTypeMessage)
    else if Get(file, "content") != Undefined && !Get(file, "content").Str? then Fail(FileContentMessage)
    else Pass
  }

  /** The `for (const file of files)` loop: the verdict on the first file
      that does not pass, or `Pass`. */
  function CheckEachFile(files: seq<JsValue>): (r: Check)
    ensures r == Pass <==> forall i :: 0 <= i < |files| ==> CheckFile(files[i]) == Pass
    ensures r != Pass ==> exists i :: 0 <= i < |files| && CheckFile(files[i]) == r
                                      && forall j :: 0 <= j < i ==> CheckFile(files[j]) == Pass
  {
    if files == [] then Pass
    else if CheckFile(files[0]) != Pass then CheckFile(files[0])
    else
      var r := CheckEachFile(files[1..]);
      if r != Pass then
        var i :| 0 <= i < |files[1..]| && CheckFile(files[1..][i]) == r
                 && forall j :: 0 <= j < i ==> CheckFile(files[1..][j]) == Pass;
        assert CheckFile(files[i + 1]) == r;
        r
      else
        assert forall i :: 1 <= i < |files| ==> CheckFile(files[i]) == CheckFile(files[1..][i - 1]);
        r
  }

  function CheckFiles(files: JsValue): Check {
    if files == Undefined then Pass
    else if !files.Arr? then Fail(FilesMessage)
    else CheckEachFile(files.items)
  }

  function CheckSettings(settings: JsValue): Check {
    if settings == Undefined then Pass
    else if !(settings.Obj? || settings.Arr?) then Fail(SettingsMessage)
    else
      var theme := Get(settings, "theme");
      var autosave := Get(settings, "autosave");
      var fontSize := Get(settings, "fontSize");
      if Truthy(theme) && !IsTheme(theme) then Fail(ThemeMessage)
      else if autosave != Undefined && !autosave.Bool? then Fail(AutosaveMessage)
      else if fontSize != Undefined && (!fontSize.Num? || fontSize.n < 10.0 || fontSize.n > 24.0)
      then Fail(FontSizeMessage)
      else Pass
  }

  function AsVerdict(c: Check): Verdict {
    match c
    case Pass => CallNext
    case Fail(m) => BadRequest(m)
    case Crash => ServerError
  }

  /** `validateProject(req, res, next)` on the parsed body. */
  function ValidateProject(body: JsValue): Verdict
    requires !body.Null? && !body.Undefined?
  {
    var name := Get(body, "name");
    var files := Get(body, "files");
    var settings := Get(body, "settings");
    if CheckName(name) != Pass then AsVerdict(CheckName(name))
    else if CheckFiles(files) != Pass then AsVerdict(CheckFiles(files))
    else AsVerdict(CheckSettings(settings))
  }

  // ---- What an accepted body looks like, stated field by field ----

  /** An acceptable name: absent, or a string that is not blank and is at
      most 100 UTF-16 code units long (length 100 passes, whatever the
      message says). */
  predicate NameOk(name: JsValue) {
    name == Undefined || (name.Str? && !IsBlank(name.s) && Utf16Length(name.s) <= MaxNameLength)
  }

  /** An acceptable file: an object-like value whose id, name and path are
      non-empty strings, whose type, when truthy, is one of the four kinds,
      and whose content, when present, is a string. */
  predicate FileOk(file: JsValue) {
    && !file.Null? && !file.Undefined?
    && IsNonEmptyString(Get(file, "id"))
    && IsNonEmptyString(Get(file, "name"))
    && IsNonEmptyString(Get(file, "path"))
    && (!Truthy(Get(file, "type")) || IsFileType(Get(file, "type")))
    && (Get(file, "content") == Undefined || Get(file, "content").Str?)
  }

  predicate FilesOk(files: JsValue) {
    files == Undefined || (files.Arr? && forall i :: 0 <= i < |files.items| ==> FileOk(files.items[i]))
  }

  /** Acceptable settings: absent, or an object whose truthy theme is light
      or dark, whose autosave when present is a boolean, and whose fontSize
      when present is a number in [10, 24]. */
  predicate SettingsOk(settings: JsValue) {
    settings == Undefined ||
    ((settings.Obj? || settings.Arr?)
     && (!Truthy(Get(settings, "theme")) || IsTheme(Get(settings, "theme")))
     && (Get(settings, "autosave") == Undefined || Get(settings, "autosave").Bool?)
     && (Get(settings, "fontSize") == Undefined
         || (Get(settings, "fontSize").Num? && 10.0 <= Get(settings, "fontSize").n <= 24.0)))
  }

  lemma {:induction false} CheckNameSpec(name: JsValue)
    ensures CheckName(name) == Pass <==> NameOk(name)
    ensures CheckName(name) != Crash
  {
    if name.Str? { TrimEmptyIffBlank(name.s); }
  }

  lemma {:induction false} CheckFileSpec(file: JsValue)
    ensures CheckFile(file) == Pass <==> FileOk(file)
    ensures CheckFile(file) == Crash <==> file.Null? || file.Undefined?
  {
  }

  lemma {:induction false} CheckFilesSpec(files: JsValue)
    ensures CheckFiles(files) == Pass <==> FilesOk(files)
  {
    if files.Arr? {
      forall i | 0 <= i < |files.items| ensures CheckFile(files.items[i]) == Pass <==> FileOk(files.items[i]) {
        CheckFileSpec(files.items[i]);
      }
    }
  }

  /** `next()` is reached exactly when every applicable check passes. */
  lemma {:induction false} ValidateProjectAccepts(body: JsValue)
    requires !body.Null? && !body.Undefined?
    ensures ValidateProject(body) == CallNext <==>
              NameOk(Get(body, "name")) && FilesOk(Get(body, "files")) && SettingsOk(Get(body, "settings"))
  {
    CheckNameSpec(Get(body, "name"));
    CheckFilesSpec(Get(body, "files"));
  }

  /** The first failing check alone decides the answer: a bad name wins over
      bad files and bad settings, and bad files win over bad settings. */
  lemma {:induction false} ValidateProjectFirstFailure(body: JsValue)
    requires !body.Null? && !body.Undefined?
    ensures !NameOk(Get(body, "name")) ==> ValidateProject(body) == AsVerdict(CheckName(Get(body, "name")))
    ensures NameOk(Get(body, "name")) && !FilesOk(Get(body, "files")) ==>
              ValidateProject(body) == AsVerdict(CheckFiles(Get(body, "files")))
    ensures ValidateProject(body).BadRequest? && NameOk(Get(body, "name")) && FilesOk(Get(body, "files")) ==>
              ValidateProject(body).message in
                {SettingsMessage, ThemeMessage, AutosaveMessage, FontSizeMessage}
    ensures NameOk(Get(body, "name")) && FilesOk(Get(body, "files")) ==>
              ValidateProject(body) == AsVerdict(CheckSettings(Get(body, "settings")))
  {
    CheckNameSpec(Get(body, "name"));
    CheckFilesSpec(Get(body, "files"));
  }

  /** A body that names none of the three fields is not checked at all. */
  lemma {:induction false} EmptyBodyPasses()
    ensures ValidateProject(Obj(map[])) == CallNext
  {
  }

  /** The length bound is inclusive: 100 characters pass, 101 fail with the
      "less than 100" message. */
  lemma {:induction false} NameLengthBoundary(s: string)
    requires forall i :: 0 <= i < |s| ==> s[i] == 'a'
    ensures |s| == 100 ==> CheckName(Str(s)) == Pass
    ensures |s| == 101 ==> CheckName(Str(s)) == Fail(NameLengthMessage)
  {
    AsciiUtf16Length(s);
    if |s| > 0 {
      assert !IsSpace(s[0]);
      TrimEmptyIffBlank(s);
    }
  }

  lemma {:induction false} AsciiUtf16Length(s: string)
    requires forall i :: 0 <= i < |s| ==> s[i] as int <= 0xFFFF
    ensures Utf16Length(s) == |s|
  {
    if s != [] { AsciiUtf16Length(s[1..]); }
  }

  /** Files are checked in order, field by field: the answer names the first
      bad field of the first bad file, and a `null` element before any bad
      file is a server error. An empty array passes. */
  lemma {:induction false} FilesCheckedInOrder(files: seq<JsValue>)
    ensures CheckFiles(Arr([])) == Pass
    ensures CheckFiles(Arr(files)) == Crash ==>
              exists i :: 0 <= i < |files| && (files[i].Null? || files[i].Undefined?)
                          && forall j :: 0 <= j < i ==> FileOk(files[j])
  {
    if CheckFiles(Arr(files)) == Crash {
      var i :| 0 <= i < |files| && CheckFile(files[i]) == Crash
               && forall j :: 0 <= j < i ==> CheckFile(files[j]) == Pass;
      forall j | 0 <= j < i ensures FileOk(files[j]) { CheckFileSpec(files[j]); }
    }
  }
}
