/** The four global regular-expression replacements with which the preview
    strips module syntax from `App.js` before embedding it in a classic
    script, each written as the left-to-right scan that JavaScript's
    `String.prototype.replace` with the `g` flag performs: at each position
    the pattern is tried; on a match the replacement is emitted and the scan
    resumes after the match, otherwise the character is copied.

      1. `/(^|\n)\s*import[^;]*;?/g`        becomes `'\n'`
      2. `/export\s+default\s+function/gi`  becomes `'function'`
      3. `/export\s+default\s+[A-Za-z0-9_\$]+;?/g` is deleted
      4. `/export\s+\{[^}]*\};?/g`          is deleted

    Without the `m` flag `^` is the start of the text; `[^;]*` and `[^}]*`
    run across line breaks; only the second pattern ignores case. */
module PreviewRewrite {
  import opened JsText
  import opened Wrappers

  // ---- Character classes and runs ----

  datatype CharClass = Space | Ident | NotSemicolon | NotCloseBrace

  predicate InClass(k: CharClass, c: char) {
    match k
    case Space => IsSpace(c)
    case Ident => ('A' <= c <= 'Z') || ('a' <= c <= 'z') || ('0' <= c <= '9') || c == '_' || c == '$'
    case NotSemicolon => c != ';'
    case NotCloseBrace => c != '}'
  }

  /** Every character of `s[j..k]` belongs to class `k`. */
  predicate AllIn(s: string, j: int, k: int, cls: CharClass) {
    0 <= j <= k <= |s| && forall t :: j <= t < k ==> InClass(cls, s[t])
  }

  /** Where a greedy `cls*` started at `j` stops: the first index from `j` on
      whose character is outside the class, or the end of the text. */
  function RunEnd(s: string, j: nat, cls: CharClass): (r: nat)
    requires j <= |s|
    ensures AllIn(s, j, r, cls)
    ensures r == |s| || !InClass(cls, s[r])
    decreases |s| - j
  {
    if j == |s| || !InClass(cls, s[j]) then j else RunEnd(s, j + 1, cls)
  }

  /** No run of the class from `j` reaches past the greedy one. */
  lemma {:induction false} RunEndIsLongest(s: string, j: nat, k: int, cls: CharClass)
    requires j <= |s| && AllIn(s, j, k, cls)
    ensures k <= RunEnd(s, j, cls)
    decreases |s| - j
  {
    if j < k { RunEndIsLongest(s, j + 1, k, cls); }
  }

  /** A run of the class from `j` followed by a character outside it (or
      by the end of the text) is the greedy run. */
  lemma {:induction false} RunEndIsUnique(s: string, j: nat, k: int, cls: CharClass)
    requires j <= |s| && AllIn(s, j, k, cls) && (k == |s| || !InClass(cls, s[k]))
    ensures k == RunEnd(s, j, cls)
  {
    RunEndIsLongest(s, j, k, cls);
  }

  // ---- Literal words ----

  /** `w` occurs at `i`, exactly. */
  predicate WordAt(s: string, i: int, w: string) {
    0 <= i && i + |w| <= |s| && s[i..i + |w|] == w
  }

  /** `w` (lower-case ASCII) occurs at `i`, ignoring the case of ASCII letters,
      as the `i` flag compares characters. */
  predicate WordAtIgnoringCase(s: string, i: int, w: string) {
    0 <= i && i + |w| <= |s| && forall t :: 0 <= t < |w| ==> LowerChar(s[i + t]) == w[t]
  }

  // ---- The four patterns, stated declaratively ----

  datatype Pattern = ImportStatement | ExportDefaultFunction | ExportDefaultName | ExportBlock

  /** Step 1 matches `s[i..e]` with its `\s*` ending at `a` and its `[^;]*`
      ending at `b`. */
  ghost predicate ImportMatchVia(s: string, i: int, a: int, b: int, e: int) {
    && 0 <= i <= a && a + 6 <= b <= e <= |s|
    && ((i == 0 && AllIn(s, i, a, Space)) || (i < |s| && s[i] == '\n' && AllIn(s, i + 1, a, Space)))
    && WordAt(s, a, "import")
    && AllIn(s, a + 6, b, NotSemicolon)
    && (e == b || (e == b + 1 && s[b] == ';'))
  }

  /** Step 2 matches `s[i..e]`, its two `\s+` ending at `a` and `b`. */
  ghost predicate ExportDefaultFunctionVia(s: string, i: int, a: int, b: int, e: int) {
    && 0 <= i && i + 6 < a && a + 7 < b && e == b + 8 && e <= |s|
    && WordAtIgnoringCase(s, i, "export") && AllIn(s, i + 6, a, Space)
    && WordAtIgnoringCase(s, a, "default") && AllIn(s, a + 7, b, Space)
    && WordAtIgnoringCase(s, b, "function")
  }

  /** Step 3 matches `s[i..e]`, its `\s+` ending at `a` and `b`, its
      identifier ending at `c`. */
  ghost predicate ExportDefaultNameVia(s: string, i: int, a: int, b: int, c: int, e: int) {
    && 0 <= i && i + 6 < a && a + 7 < b && b < c <= e <= |s|
    && WordAt(s, i, "export") && AllIn(s, i + 6, a, Space)
    && WordAt(s, a, "default") && AllIn(s, a + 7, b, Space)
    && AllIn(s, b, c, Ident)
    && (e == c || (e == c + 1 && s[c] == ';'))
  }

  /** Step 4 matches `s[i..e]`, its `\s+` ending at `a` (the `{`), its
      closing brace at `c`. */
  ghost predicate ExportBlockVia(s: string, i: int, a: int, c: int, e: int) {
    && 0 <= i && i + 6 < a && a < c && c + 1 <= e <= |s|
    && WordAt(s, i, "export") && AllIn(s, i + 6, a, Space)
    && s[a] == '{' && AllIn(s, a + 1, c, NotCloseBrace) && s[c] == '}'
    && (e == c + 1 || (e == c + 2 && s[c + 1] == ';'))
  }

  /** The pattern matches the text `s[i..e]`. */
  ghost predicate Matches(p: Pattern, s: string, i: int, e: int) {
    match p
    case ImportStatement => exists a, b :: ImportMatchVia(s, i, a, b, e)
    case ExportDefaultFunction => exists a, b :: ExportDefaultFunctionVia(s, i, a, b, e)
    case ExportDefaultName => exists a, b, c :: ExportDefaultNameVia(s, i, a, b, c, e)
    case ExportBlock => exists a, c :: ExportBlockVia(s, i, a, c, e)
  }

  // ---- The matchers the scan runs at each position ----

  function MatchImport(s: string, i: nat): Option<nat>
    requires i <= |s|
  {
    if !(i == 0 || (i < |s| && s[i] == '\n')) then None
    else
      var a := RunEnd(s, i, Space);
      if !WordAt(s, a, "import") then None
      else
        var b := RunEnd(s, a + 6, NotSemicolon);
        Some(if b < |s| then b + 1 else b)
  }

  function MatchExportDefaultFunction(s: string, i: nat): Option<nat>
    requires i <= |s|
  {
    if !WordAtIgnoringCase(s, i, "export") then None
    else
      var a := RunEnd(s, i + 6, Space);
      if a == i + 6 || !WordAtIgnoringCase(s, a, "default") then None
      else
        var b := RunEnd(s, a + 7, Space);
        if b == a + 7 || !WordAtIgnoringCase(s, b, "function") then None
        else Some(b + 8)
  }

  function MatchExportDefaultName(s: string, i: nat): Option<nat>
    requires i <= |s|
  {
    if !WordAt(s, i, "export") then None
    else
      var a := RunEnd(s, i + 6, Space);
      if a == i + 6 || !WordAt(s, a, "default") then None
      else
        var b := RunEnd(s, a + 7, Space);
        if b == a + 7 then None
        else
          var c := RunEnd(s, b, Ident);
          if c == b then None
          else Some(if c < |s| && s[c] == ';' then c + 1 else c)
  }

  function MatchExportBlock(s: string, i: nat): Option<nat>
    requires i <= |s|
  {
    if !WordAt(s, i, "export") then None
    else
      var a := RunEnd(s, i + 6, Space);
      if a == i + 6 || a == |s| || s[a] != '{' then None
      else
        var c := RunEnd(s, a + 1, NotCloseBrace);
        if c == |s| then None
        else Some(if c + 1 < |s| && s[c + 1] == ';' then c + 2 else c + 1)
  }

  /** What the regular-expression engine finds at position `i`: the end of
      the match it reports, or `None`. */
  function MatchAt(p: Pattern, s: string, i: nat): (r: Option<nat>)
    requires i <= |s|
    ensures r.Some? ==> i < r.value <= |s| && Matches(p, s, i, r.value)
    ensures forall e :: Matches(p, s, i, e) ==> r.Some? && e <= r.value
  {
    match p
    case ImportStatement => MatchImportSpec(s, i); MatchImport(s, i)
    case ExportDefaultFunction => MatchExportDefaultFunctionSpec(s, i); MatchExportDefaultFunction(s, i)
    case ExportDefaultName => MatchExportDefaultNameSpec(s, i); MatchExportDefaultName(s, i)
    case ExportBlock => MatchExportBlockSpec(s, i); MatchExportBlock(s, i)
  }

  // ---- Each matcher reports the longest match there is ----

  lemma {:induction false} MatchImportSpec(s: string, i: nat)
    requires i <= |s|
    ensures MatchImport(s, i).Some? ==>
              (i < MatchImport(s, i).value <= |s| && Matches(ImportStatement, s, i, MatchImport(s, i).value))
    ensures forall e :: Matches(ImportStatement, s, i, e) ==>
              (MatchImport(s, i).Some? && e <= MatchImport(s, i).value)
  {
    var r := MatchImport(s, i);
    if r.Some? {
      var a := RunEnd(s, i, Space);
      var b := RunEnd(s, a + 6, NotSemicolon);
      if i == 0 {
        assert ImportMatchVia(s, i, a, b, r.value);
      } else {
        assert AllIn(s, i + 1, a, Space);
        assert ImportMatchVia(s, i, a, b, r.value);
      }
    }
    forall e | Matches(ImportStatement, s, i, e) ensures r.Some? && e <= r.value {
      var a, b :| ImportMatchVia(s, i, a, b, e);
      assert !IsSpace(s[a]) by { assert s[a] == "import"[0]; }
      if i == 0 && AllIn(s, i, a, Space) {
        RunEndIsUnique(s, i, a, Space);
      } else {
        assert s[i] == '\n';
        RunEndIsUnique(s, i + 1, a, Space);
        assert RunEnd(s, i, Space) == RunEnd(s, i + 1, Space);
      }
      RunEndIsLongest(s, a + 6, b, NotSemicolon);
    }
  }

  lemma {:induction false} MatchExportDefaultFunctionSpec(s: string, i: nat)
    requires i <= |s|
    ensures MatchExportDefaultFunction(s, i).Some? ==>
              (i < MatchExportDefaultFunction(s, i).value <= |s|
               && Matches(ExportDefaultFunction, s, i, MatchExportDefaultFunction(s, i).value))
    ensures forall e :: Matches(ExportDefaultFunction, s, i, e) ==>
              (MatchExportDefaultFunction(s, i).Some? && e <= MatchExportDefaultFunction(s, i).value)
  {
    var r := MatchExportDefaultFunction(s, i);
    if r.Some? {
      var a := RunEnd(s, i + 6, Space);
      var b := RunEnd(s, a + 7, Space);
      assert ExportDefaultFunctionVia(s, i, a, b, r.value);
    }
    forall e | Matches(ExportDefaultFunction, s, i, e) ensures r.Some? && e <= r.value {
      var a, b :| ExportDefaultFunctionVia(s, i, a, b, e);
      ExportDefaultFunctionFound(s, i, a, b, e);
    }
  }

  /** A step-2 match through `a` and `b` is the one the matcher finds. */
  lemma {:induction false} ExportDefaultFunctionFound(s: string, i: nat, a: int, b: int, e: int)
    requires ExportDefaultFunctionVia(s, i, a, b, e)
    ensures MatchExportDefaultFunction(s, i) == Some(e)
  {
    LetterStartsWord(s, a, "default");
    RunEndIsUnique(s, i + 6, a, Space);
    LetterStartsWord(s, b, "function");
    RunEndIsUnique(s, a + 7, b, Space);
  }

  lemma {:induction false} MatchExportDefaultNameSpec(s: string, i: nat)
    requires i <= |s|
    ensures MatchExportDefaultName(s, i).Some? ==>
              (i < MatchExportDefaultName(s, i).value <= |s|
               && Matches(ExportDefaultName, s, i, MatchExportDefaultName(s, i).value))
    ensures forall e :: Matches(ExportDefaultName, s, i, e) ==>
              (MatchExportDefaultName(s, i).Some? && e <= MatchExportDefaultName(s, i).value)
  {
    var r := MatchExportDefaultName(s, i);
    if r.Some? {
      var a := RunEnd(s, i + 6, Space);
      var b := RunEnd(s, a + 7, Space);
      var c := RunEnd(s, b, Ident);
      assert ExportDefaultNameVia(s, i, a, b, c, r.value);
    }
    forall e | Matches(ExportDefaultName, s, i, e) ensures r.Some? && e <= r.value {
      var a, b, c :| ExportDefaultNameVia(s, i, a, b, c, e);
      ExportDefaultNameFound(s, i, a, b, c, e);
    }
  }

  /** A match through the given split points is found by the greedy scan,
      which reaches at least as far. */
  lemma {:induction false} ExportDefaultNameFound(s: string, i: nat, a: int, b: int, c: int, e: int)
    requires ExportDefaultNameVia(s, i, a, b, c, e)
    ensures MatchExportDefaultName(s, i).Some? && e <= MatchExportDefaultName(s, i).value
  {
    assert !IsSpace(s[a]) by { assert s[a] == "default"[0]; }
    RunEndIsUnique(s, i + 6, a, Space);
    assert !IsSpace(s[b]) by { assert InClass(Ident, s[b]); }
    RunEndIsUnique(s, a + 7, b, Space);
    RunEndIsLongest(s, b, c, Ident);
    var c' := RunEnd(s, b, Ident);
    if c < c' {
      assert InClass(Ident, s[c]);
    }
  }

  lemma {:induction false} MatchExportBlockSpec(s: string, i: nat)
    requires i <= |s|
    ensures MatchExportBlock(s, i).Some? ==>
              (i < MatchExportBlock(s, i).value <= |s| && Matches(ExportBlock, s, i, MatchExportBlock(s, i).value))
    ensures forall e :: Matches(ExportBlock, s, i, e) ==>
              (MatchExportBlock(s, i).Some? && e <= MatchExportBlock(s, i).value)
  {
    var r := MatchExportBlock(s, i);
    if r.Some? {
      var a := RunEnd(s, i + 6, Space);
      var c := RunEnd(s, a + 1, NotCloseBrace);
      assert ExportBlockVia(s, i, a, c, r.value);
    }
    forall e | Matches(ExportBlock, s, i, e) ensures r.Some? && e <= r.value {
      var a, c :| ExportBlockVia(s, i, a, c, e);
      RunEndIsUnique(s, i + 6, a, Space);
      RunEndIsUnique(s, a + 1, c, NotCloseBrace);
    }
  }

  // ---- The global replacement ----

  function Replacement(p: Pattern): string {
    match p
    case ImportStatement => "\n"
    case ExportDefaultFunction => "function"
    case ExportDefaultName => ""
    case ExportBlock => ""
  }

  /** `s.replace(pattern, replacement)` from position `i` on. */
  function ReplaceFrom(p: Pattern, s: string, i: nat): string
    requires i <= |s|
    decreases |s| - i
  {
    if i == |s| then []
    else
      match MatchAt(p, s, i)
      case Some(e) => Replacement(p) + ReplaceFrom(p, s, e)
      case None => [s[i]] + ReplaceFrom(p, s, i + 1)
  }

  function ReplaceAll(p: Pattern, s: string): string {
    ReplaceFrom(p, s, 0)
  }

  /** The four replacements in source order. */
  function StripModuleSyntax(raw: string): string {
    var s1 := ReplaceAll(ImportStatement, raw);
    var s2 := ReplaceAll(ExportDefaultFunction, s1);
    var s3 := ReplaceAll(ExportDefaultName, s2);
    ReplaceAll(ExportBlock, s3)
  }

  // ---- Properties of the replacement ----

  /** Where the pattern matches nowhere from `i` on, the text is copied. */
  lemma {:induction false} ReplaceFromWithoutMatch(p: Pattern, s: string, i: nat)
    requires i <= |s|
    requires forall k, e :: i <= k <= |s| ==> !Matches(p, s, k, e)
    ensures ReplaceFrom(p, s, i) == s[i..]
    decreases |s| - i
  {
    if i < |s| {
      ReplaceFromWithoutMatch(p, s, i + 1);
      assert s[i..] == [s[i]] + s[i + 1..];
    }
  }

  /** Every replacement is no longer than the text it replaces, so none of
      the four steps makes the text longer. */
  lemma {:induction false} ReplaceFromShrinks(p: Pattern, s: string, i: nat)
    requires i <= |s|
    ensures |ReplaceFrom(p, s, i)| <= |s| - i
    decreases |s| - i
  {
    if i < |s| {
      match MatchAt(p, s, i)
      case Some(e) =>
        ReplaceFromShrinks(p, s, e);
        MatchIsLongerThanReplacement(p, s, i, e);
      case None =>
        ReplaceFromShrinks(p, s, i + 1);
    }
  }

  lemma {:induction false} MatchIsLongerThanReplacement(p: Pattern, s: string, i: int, e: int)
    requires Matches(p, s, i, e)
    ensures |Replacement(p)| <= e - i
  {
    match p
    case ImportStatement => var a, b :| ImportMatchVia(s, i, a, b, e);
    case ExportDefaultFunction => var a, b :| ExportDefaultFunctionVia(s, i, a, b, e);
    case ExportDefaultName =>
    case ExportBlock =>
  }

  /** Every match contains its keyword: `import` for step 1, `export` (in
      any case) for the others. */
  lemma {:induction false} MatchHasKeyword(p: Pattern, s: string, i: int, e: int)
    requires Matches(p, s, i, e)
    ensures p == ImportStatement ==> exists a :: i <= a <= |s| && WordAt(s, a, "import")
    ensures p != ImportStatement ==> WordAtIgnoringCase(s, i, "export")
  {
    match p
    case ImportStatement => var a, b :| ImportMatchVia(s, i, a, b, e);
    case ExportDefaultFunction =>
    case ExportDefaultName =>
      var a, b, c :| ExportDefaultNameVia(s, i, a, b, c, e);
      ExactWordIgnoringCase(s, i, "export");
    case ExportBlock =>
      var a, c :| ExportBlockVia(s, i, a, c, e);
      ExactWordIgnoringCase(s, i, "export");
  }

  /** A word that starts with a letter does not start with white space. */
  lemma {:induction false} LetterStartsWord(s: string, i: int, w: string)
    requires WordAtIgnoringCase(s, i, w) && |w| > 0 && 'a' <= w[0] <= 'z'
    ensures !IsSpace(s[i])
  {
    assert LowerChar(s[i + 0]) == w[0];
  }

  lemma {:induction false} ExactWordIgnoringCase(s: string, i: int, w: string)
    requires WordAt(s, i, w)
    requires forall t :: 0 <= t < |w| ==> 'a' <= w[t] <= 'z'
    ensures WordAtIgnoringCase(s, i, w)
  {
    forall t | 0 <= t < |w| ensures LowerChar(s[i + t]) == w[t] {
      assert s[i + t] == s[i..i + |w|][t];
    }
  }

  /** Text that contains neither `import` nor `export` in any case passes
      through all four steps unchanged. */
  lemma {:induction false} StripModuleSyntaxKeepsPlainText(s: string)
    requires forall a :: 0 <= a <= |s| ==> !WordAt(s, a, "import")
    requires forall a :: 0 <= a <= |s| ==> !WordAtIgnoringCase(s, a, "export")
    ensures StripModuleSyntax(s) == s
  {
    forall p, k, e | 0 <= k <= |s| ensures !Matches(p, s, k, e) {
      if Matches(p, s, k, e) { MatchHasKeyword(p, s, k, e); }
    }
    ReplaceFromWithoutMatch(ImportStatement, s, 0);
    ReplaceFromWithoutMatch(ExportDefaultFunction, s, 0);
    ReplaceFromWithoutMatch(ExportDefaultName, s, 0);
    ReplaceFromWithoutMatch(ExportBlock, s, 0);
  }

  /** The transformed text is never longer than the authored text. */
  lemma {:induction false} StripModuleSyntaxShrinks(s: string)
    ensures |StripModuleSyntax(s)| <= |s|
  {
    ReplaceFromShrinks(ImportStatement, s, 0);
    var s1 := ReplaceAll(ImportStatement, s);
    ReplaceFromShrinks(ExportDefaultFunction, s1, 0);
    var s2 := ReplaceAll(ExportDefaultFunction, s1);
    ReplaceFromShrinks(ExportDefaultName, s2, 0);
    var s3 := ReplaceAll(ExportDefaultName, s2);
    ReplaceFromShrinks(ExportBlock, s3, 0);
  }

  /** The placeholder component embedded when the transformed text is blank. */
  const PlaceholderApp: string :=
    "function App(){ return "
    + "React.createElement('div',"
    + "{style:{padding:20,color:'#fff'}}, "
    + "'No App source available to render') }"

  /** `appJs && appJs.trim() ? appJs : placeholder`. */
  function SafeAppJs(appJs: string): (r: string)
    ensures r == appJs <==> !IsBlank(appJs)
    ensures r != appJs ==> r == PlaceholderApp
    ensures !IsBlank(r)
  {
    TrimEmptyIffBlank(appJs);
    assert !IsSpace(PlaceholderApp[0]);
    if appJs != [] && Trim(appJs) != [] then appJs else PlaceholderApp
  }

  /** Text in which no `export` occurs, in any case. */
  predicate ExportFree(s: string) {
    forall a :: 0 <= a <= |s| ==> !WordAtIgnoringCase(s, a, "export")
  }

  /** Steps 2 to 4 leave export-free text alone. */
  lemma {:induction false} ExportStepsKeep(s: string)
    requires ExportFree(s)
    ensures ReplaceAll(ExportDefaultFunction, s) == s
    ensures ReplaceAll(ExportDefaultName, s) == s
    ensures ReplaceAll(ExportBlock, s) == s
  {
    forall p, k, e | p != ImportStatement && 0 <= k <= |s| ensures !Matches(p, s, k, e) {
      if Matches(p, s, k, e) { MatchHasKeyword(p, s, k, e); }
    }
    ReplaceFromWithoutMatch(ExportDefaultFunction, s, 0);
    ReplaceFromWithoutMatch(ExportDefaultName, s, 0);
    ReplaceFromWithoutMatch(ExportBlock, s, 0);
  }

  /** The rewrite is not idempotent: a second import on the line of the
      first survives the first pass, because the first match consumed the
      `;` that ends it and the second one follows no line break, and a
      second pass then removes it. */
  lemma {:induction false} StripModuleSyntaxNotIdempotent(s: string, t: string)
    requires s == "import a;import b;" && t == "\nimport b;"
    ensures StripModuleSyntax(s) == t
    ensures StripModuleSyntax(t) == "\n"
    ensures StripModuleSyntax(StripModuleSyntax(s)) != StripModuleSyntax(s)
  {
    ImportPassKeepsSecondImport(s, t);
    NoExportIn(t);
    ExportStepsKeep(t);
    ImportPassRemovesLineImport(t);
    NoExportIn("\n");
    ExportStepsKeep("\n");
  }

  lemma {:induction false} ImportPassKeepsSecondImport(s: string, t: string)
    requires s == "import a;import b;" && t == "\nimport b;"
    ensures ReplaceAll(ImportStatement, s) == t
  {
    assert RunEnd(s, 0, Space) == 0;
    assert WordAt(s, 0, "import");
    assert RunEnd(s, 6, NotSemicolon) == 8 by {
      assert RunEnd(s, 8, NotSemicolon) == 8;
      assert RunEnd(s, 7, NotSemicolon) == 8;
    }
    assert MatchImport(s, 0) == Some(9);
    forall k, e | 9 <= k <= |s| ensures !Matches(ImportStatement, s, k, e) {
      if Matches(ImportStatement, s, k, e) {
        var a, b :| ImportMatchVia(s, k, a, b, e);
      }
    }
    ReplaceFromWithoutMatch(ImportStatement, s, 9);
    assert s[9..] == t[1..];
    assert t == "\n" + t[1..];
  }

  lemma {:induction false} ImportPassRemovesLineImport(t: string)
    requires t == "\nimport b;"
    ensures ReplaceAll(ImportStatement, t) == "\n"
  {
    assert RunEnd(t, 0, Space) == 1 by { assert RunEnd(t, 1, Space) == 1; }
    assert WordAt(t, 1, "import");
    assert RunEnd(t, 7, NotSemicolon) == 9 by {
      assert RunEnd(t, 9, NotSemicolon) == 9;
      assert RunEnd(t, 8, NotSemicolon) == 9;
    }
    assert MatchAt(ImportStatement, t, 0) == Some(10);
    assert ReplaceFrom(ImportStatement, t, 10) == [];
  }

  /** Text with no `e` or `E` holds no `export`. */
  lemma {:induction false} NoExportIn(t: string)
    requires forall a :: 0 <= a < |t| ==> LowerChar(t[a]) != 'e'
    ensures ExportFree(t)
  {
    forall a | 0 <= a <= |t| ensures !WordAtIgnoringCase(t, a, "export") {
      if a + 6 <= |t| { assert LowerChar(t[a + 0]) != "export"[0]; }
    }
  }
}
