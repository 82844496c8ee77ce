/** String operations of the JavaScript runtime that the IDE relies on:
    the `\s` class and `String.prototype.trim`, `split(sep).pop()`,
    `toLowerCase` (ASCII letters), `includes`, decimal rendering of
    `Date.now()` and the UTF-16 `length` of a string. */
module JsText {

  /** The characters JavaScript's `\s` and `trim` treat as white space:
      WhiteSpace and LineTerminator of ECMA-262 (sections 12.2 and 12.3). */
  predicate IsSpace(c: char) {
    c == ' ' || c == '\t' || c == '\n' || c == '\U{B}' || c == '\U{C}' || c == '\r'
    || c == '\U{A0}' || c == '\U{1680}' || ('\U{2000}' <= c <= '\U{200A}')
    || c == '\U{2028}' || c == '\U{2029}' || c == '\U{202F}' || c == '\U{205F}'
    || c == '\U{3000}' || c == '\U{FEFF}'
  }

  /** Every character of `s` is white space (so `s.trim() === ''`). */
  predicate IsBlank(s: string) {
    forall i :: 0 <= i < |s| ==> IsSpace(s[i])
  }

  predicate HasSpace(s: string) {
    exists i :: 0 <= i < |s| && IsSpace(s[i])
  }

  /** `s` without its leading white space. */
  function TrimStart(s: string): string {
    if s != [] && IsSpace(s[0]) then TrimStart(s[1..]) else s
  }

  /** What `TrimStart` drops is a blank prefix, and what it keeps starts
      with a non-space. */
  lemma {:induction false} TrimStartSpec(s: string)
    ensures |TrimStart(s)| <= |s| && TrimStart(s) == s[|s| - |TrimStart(s)|..]
    ensures IsBlank(s[..|s| - |TrimStart(s)|])
    ensures TrimStart(s) == [] || !IsSpace(TrimStart(s)[0])
  {
    if s != [] && IsSpace(s[0]) {
      TrimStartSpec(s[1..]);
      var r := TrimStart(s[1..]);
      var k := |s| - |r|;
      assert s[..k] == [s[0]] + s[1..][..k - 1];
    }
  }

  lemma {:induction false} TrimStartBlank(s: string)
    requires IsBlank(s)
    ensures TrimStart(s) == []
  {
    if s != [] {
      TrimStartBlank(s[1..]);
    }
  }

  /** `s` without its trailing white space. */
  function TrimEnd(s: string): string {
    if s != [] && IsSpace(s[|s| - 1]) then TrimEnd(s[..|s| - 1]) else s
  }

  /** What `TrimEnd` drops is a blank suffix, and what it keeps ends with a
      non-space. */
  lemma {:induction false} TrimEndSpec(s: string)
    ensures |TrimEnd(s)| <= |s| && TrimEnd(s) == s[..|TrimEnd(s)|]
    ensures IsBlank(s[|TrimEnd(s)|..])
    ensures TrimEnd(s) == [] || !IsSpace(TrimEnd(s)[|TrimEnd(s)| - 1])
  {
    if s != [] && IsSpace(s[|s| - 1]) {
      var init := s[..|s| - 1];
      TrimEndSpec(init);
      var r := TrimEnd(init);
      assert s[|r|..] == init[|r|..] + [s[|s| - 1]];
    }
  }

  /** `s.trim()`. */
  function Trim(s: string): string {
    TrimEnd(TrimStart(s))
  }

  /** The trimmed text is no longer than `s` and neither starts nor ends
      with white space. */
  lemma {:induction false} TrimSpec(s: string)
    ensures |Trim(s)| <= |s|
    ensures Trim(s) == [] || (!IsSpace(Trim(s)[0]) && !IsSpace(Trim(s)[|Trim(s)| - 1]))
  {
    TrimStartSpec(s);
    TrimEndSpec(TrimStart(s));
    var t := TrimStart(s);
    if Trim(s) != [] {
      assert Trim(s)[0] == t[0];
    }
  }

  /** `s.trim()` is empty exactly when `s` is blank. */
  lemma {:induction false} TrimEmptyIffBlank(s: string)
    ensures Trim(s) == [] <==> IsBlank(s)
  {
    if IsBlank(s) {
      TrimStartBlank(s);
    } else if Trim(s) == [] {
      TrimEmptyMeansBlank(s);
    }
  }

  lemma {:induction false} TrimEmptyMeansBlank(s: string)
    requires Trim(s) == []
    ensures IsBlank(s)
  {
    var t := TrimStart(s);
    TrimStartSpec(s);
    TrimEndSpec(t);
    // a non-empty `t` would start with a non-space that `TrimEnd` cannot drop
    assert IsBlank(t[0..]);
    assert t == [];
    assert s[..|s|] == s;
  }

  /** Trimming twice is trimming once. */
  lemma {:induction false} TrimIdempotent(s: string)
    ensures Trim(Trim(s)) == Trim(s)
  {
    var r := Trim(s);
    TrimSpec(s);
    if r != [] {
      assert TrimStart(r) == r;
      assert TrimEnd(r) == r;
    }
  }

  /** `sub` occurs in `s` starting at index `i`. */
  predicate OccursAt(s: string, sub: string, i: int) {
    0 <= i && i + |sub| <= |s| && s[i..i + |sub|] == sub
  }

  /** `s.includes(sub)`. */
  predicate Contains(s: string, sub: string) {
    exists i :: 0 <= i <= |s| && OccursAt(s, sub, i)
  }

  /** A text that lacks one of the characters of `sub` does not contain it. */
  lemma {:induction false} MissingCharNotContained(s: string, sub: string, c: char)
    requires c in sub && c !in s
    ensures !Contains(s, sub)
  {
    var k :| 0 <= k < |sub| && sub[k] == c;
    forall i | 0 <= i <= |s| ensures !OccursAt(s, sub, i) {
      if i + |sub| <= |s| {
        assert s[i..i + |sub|][k] == s[i + k];
      }
    }
  }

  /** A text of the form `prefix + sub + suffix` contains `sub`. */
  lemma {:induction false} Contained(prefix: string, sub: string, suffix: string)
    ensures Contains(prefix + sub + suffix, sub)
  {
    var s := prefix + sub + suffix;
    assert s[|prefix|..|prefix| + |sub|] == sub;
    assert OccursAt(s, sub, |prefix|);
  }

  /** `s.endsWith(suffix)`. */
  predicate EndsWith(s: string, suffix: string) {
    |suffix| <= |s| && s[|s| - |suffix|..] == suffix
  }

  /** `s.split(sep).pop()`: the text after the last `sep`, or all of `s`
      when `sep` does not occur. */
  function LastSegment(s: string, sep: char): (r: string)
    ensures |r| <= |s| && r == s[|s| - |r|..]
    ensures sep !in r
    ensures |r| < |s| ==> s[|s| - |r| - 1] == sep
  {
    if s == [] then []
    else if s[|s| - 1] == sep then []
    else LastSegment(s[..|s| - 1], sep) + [s[|s| - 1]]
  }

  /** The text after the last separator is what follows it when no
      separator comes later. */
  lemma {:induction false} LastSegmentAfter(stem: string, sep: char, tail: string)
    requires sep !in tail
    ensures LastSegment(stem + [sep] + tail, sep) == tail
  {
    var s := stem + [sep] + tail;
    if tail != [] {
      var init := tail[..|tail| - 1];
      assert s[..|s| - 1] == stem + [sep] + init;
      assert s[|s| - 1] == tail[|tail| - 1];
      LastSegmentAfter(stem, sep, init);
    }
  }

  /** `s.split(sep).slice(0, -1).join(sep)`: the text before the last
      `sep`, or `''` when `sep` does not occur. */
  function BeforeLastSegment(s: string, sep: char): string {
    if s == [] then []
    else if s[|s| - 1] == sep then s[..|s| - 1]
    else BeforeLastSegment(s[..|s| - 1], sep)
  }

  /** What precedes the last separator, the separator and the last segment
      make up the string; without a separator nothing precedes. */
  lemma {:induction false} BeforeLastSegmentSpec(s: string, sep: char)
    ensures sep in s ==> BeforeLastSegment(s, sep) + [sep] + LastSegment(s, sep) == s
    ensures sep !in s ==> BeforeLastSegment(s, sep) == []
  {
    if s != [] && s[|s| - 1] != sep {
      var init := s[..|s| - 1];
      var c := s[|s| - 1];
      BeforeLastSegmentSpec(init, sep);
      assert s == init + [c];
      assert BeforeLastSegment(s, sep) == BeforeLastSegment(init, sep);
      assert LastSegment(s, sep) == LastSegment(init, sep) + [c];
      if sep in s {
        assert sep in init;
        var r := BeforeLastSegment(init, sep);
        assert r + [sep] + (LastSegment(init, sep) + [c]) == (r + [sep] + LastSegment(init, sep)) + [c];
      }
    }
  }

  function LowerChar(c: char): char {
    if 'A' <= c <= 'Z' then (c as int - 'A' as int + 'a' as int) as char else c
  }

  /** `s.toLowerCase()` on ASCII letters; other characters are kept. */
  function ToLower(s: string): (r: string)
    ensures |r| == |s|
    ensures forall i :: 0 <= i < |s| ==> r[i] == LowerChar(s[i])
  {
    seq(|s|, i requires 0 <= i < |s| => LowerChar(s[i]))
  }

  /** Lower-casing leaves no ASCII capital, changes nothing else, fixes
      exactly the strings without capitals, and so is idempotent. */
  lemma {:induction false} ToLowerSpec(s: string)
    ensures forall i :: 0 <= i < |ToLower(s)| ==> !('A' <= ToLower(s)[i] <= 'Z')
    ensures forall i :: 0 <= i < |s| && !('A' <= s[i] <= 'Z') ==> ToLower(s)[i] == s[i]
    ensures ToLower(s) == s <==> forall i :: 0 <= i < |s| ==> !('A' <= s[i] <= 'Z')
    ensures ToLower(ToLower(s)) == ToLower(s)
  {
  }

  function DigitChar(d: nat): char
    requires d < 10
  {
    ('0' as int + d) as char
  }

  /** The decimal rendering of a non-negative integer, as `${n}` prints it. */
  function DecimalString(n: nat): (r: string)
    ensures r != []
    ensures forall i :: 0 <= i < |r| ==> '0' <= r[i] <= '9'
  {
    if n < 10 then [DigitChar(n)] else DecimalString(n / 10) + [DigitChar(n % 10)]
  }

  /** The JavaScript `length` of a string: characters outside the Basic
      Multilingual Plane count as two UTF-16 code units. */
  function Utf16Length(s: string): (r: nat)
    ensures |s| <= r <= 2 * |s|
  {
    if s == [] then 0
    else (if s[0] as int > 0xFFFF then 2 else 1) + Utf16Length(s[1..])
  }

  /** The length of a concatenation is the sum of the lengths. */
  lemma {:induction false} Utf16LengthAppend(a: string, b: string)
    ensures Utf16Length(a + b) == Utf16Length(a) + Utf16Length(b)
    decreases |a|
  {
    if a != [] {
      assert (a + b)[0] == a[0];
      assert (a + b)[1..] == a[1..] + b;
      Utf16LengthAppend(a[1..], b);
    } else {
      assert a + b == b;
    }
  }

  lemma {:induction false} Utf16SliceShorter(s: string, i: nat, j: nat)
    requires i <= j <= |s|
    ensures Utf16Length(s[i..j]) <= Utf16Length(s)
  {
    var a, m, z := s[..i], s[i..j], s[j..];
    assert s == a + (m + z);
    Utf16LengthAppend(m, z);
    Utf16LengthAppend(a, m + z);
  }

  /** Trimming never makes a string longer, in UTF-16 units either. */
  lemma {:induction false} TrimUtf16Shorter(s: string)
    ensures Utf16Length(Trim(s)) <= Utf16Length(s)
  {
    var t := TrimStart(s);
    var r := TrimEnd(t);
    TrimStartSpec(s);
    TrimEndSpec(t);
    var k := |s| - |t|;
    assert s[k..|s|] == t;
    Utf16SliceShorter(s, k, |s|);
    assert t[0..|r|] == r;
    Utf16SliceShorter(t, 0, |r|);
    assert r == Trim(s);
  }

  /** `s.replace(/\s+/g, rep)`: every maximal run of white space becomes `rep`. */
  function ReplaceSpaceRuns(s: string, rep: string): (r: string)
    decreases |s|
  {
    if s == [] then []
    else if IsSpace(s[0]) then
      TrimStartSpec(s[1..]);
      rep + ReplaceSpaceRuns(TrimStart(s), rep)
    else [s[0]] + ReplaceSpaceRuns(s[1..], rep)
  }

  /** With a replacement free of white space, no white space survives, the
      non-space characters keep their order, and text without white space
      is returned unchanged. */
  lemma {:induction false} ReplaceSpaceRunsSpec(s: string, rep: string)
    requires !HasSpace(rep)
    ensures !HasSpace(ReplaceSpaceRuns(s, rep))
    ensures !HasSpace(s) ==> ReplaceSpaceRuns(s, rep) == s
    ensures |rep| <= 1 ==> |ReplaceSpaceRuns(s, rep)| <= |s|
    decreases |s|
  {
    if s == [] {
    } else if IsSpace(s[0]) {
      var t := TrimStart(s);
      TrimStartSpec(s[1..]);
      ReplaceSpaceRunsSpec(t, rep);
      var r := ReplaceSpaceRuns(t, rep);
      assert ReplaceSpaceRuns(s, rep) == rep + r;
      forall i | 0 <= i < |rep + r| ensures !IsSpace((rep + r)[i]) {
        if i < |rep| { assert (rep + r)[i] == rep[i]; } else { assert (rep + r)[i] == r[i - |rep|]; }
      }
    } else {
      ReplaceSpaceRunsSpec(s[1..], rep);
      var r := ReplaceSpaceRuns(s[1..], rep);
      assert ReplaceSpaceRuns(s, rep) == [s[0]] + r;
      forall i | 0 <= i < |[s[0]] + r| ensures !IsSpace(([s[0]] + r)[i]) {
        if i > 0 { assert ([s[0]] + r)[i] == r[i - 1]; }
      }
      if !HasSpace(s) {
        assert !HasSpace(s[1..]) by {
          forall i | 0 <= i < |s[1..]| ensures !IsSpace(s[1..][i]) { assert s[1..][i] == s[i + 1]; }
        }
        assert s == [s[0]] + s[1..];
      }
    }
  }
}
