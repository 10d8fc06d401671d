/** The JavaScript string primitives the relay relies on, stated over `seq<char>`:
    whitespace as `\s` and `String.prototype.trim` see it, `toLowerCase` for ASCII and
    Latin-1 letters, `split(/\s+/)`, UTF-16 length, `startsWith`/`endsWith`/`includes`,
    first-occurrence `replace`, `split(c)[0]`, decimal formatting and `JSON.stringify` of
    a string. */
module Text {
  import opened Wrappers

  /** JavaScript truthiness of a value that is either a string or `undefined`. */
  predicate Truthy(s: Option<string>) {
    s.Some? && s.value != ""
  }

  /** `a || b` for two values that are strings or `undefined`. */
  function OrElse(a: Option<string>, b: Option<string>): (r: Option<string>)
    ensures Truthy(a) ==> r == a
    ensures !Truthy(a) ==> r == b
  {
    if Truthy(a) then a else b
  }

  // ---------------------------------------------------------------------------
  // Character classes

  /** The ECMAScript WhiteSpace and LineTerminator code points: exactly what the regular
      expression class `\s` matches and what `trim()` removes. */
  predicate IsSpace(c: char) {
    || c == ' ' || c == '\t' || c == '\n' || c == '\r' || c == '\U{000B}' || c == '\U{000C}'
    || c == '\U{00A0}' || c == '\U{1680}' || ('\U{2000}' <= c <= '\U{200A}')
    || c == '\U{2028}' || c == '\U{2029}' || c == '\U{202F}' || c == '\U{205F}'
    || c == '\U{3000}' || c == '\U{FEFF}'
  }

  predicate NoSpace(s: string) {
    forall i :: 0 <= i < |s| ==> !IsSpace(s[i])
  }

  /** The regular-expression class `\w` (no `u` flag): ASCII letters, digits and `_`. */
  predicate IsWordChar(c: char) {
    ('a' <= c <= 'z') || ('A' <= c <= 'Z') || ('0' <= c <= '9') || c == '_'
  }

  /** Capital letters whose lower-case form the model knows: ASCII A-Z and the Latin-1
      capitals U+00C0..U+00DE except the multiplication sign. */
  predicate IsUpper(c: char) {
    ('A' <= c <= 'Z') || ('\U{00C0}' <= c <= '\U{00DE}' && c != '\U{00D7}')
  }

  function LowerChar(c: char): (r: char)
    ensures IsSpace(r) <==> IsSpace(c)
    ensures IsWordChar(r) <==> IsWordChar(c)
    ensures !IsUpper(r)
    ensures !IsUpper(c) ==> r == c
  {
    if IsUpper(c) then (c as int + 32) as char else c
  }

  /** `toLowerCase()` restricted to the letters `IsUpper` covers. */
  function Lower(s: string): (r: string)
    ensures |r| == |s|
    ensures forall i :: 0 <= i < |s| ==> r[i] == LowerChar(s[i])
  {
    seq(|s|, i requires 0 <= i < |s| => LowerChar(s[i]))
  }

  lemma LowerIdempotent(s: string)
    ensures Lower(Lower(s)) == Lower(s)
  {
  }

  lemma LowerOfLower(s: string)
    requires forall i :: 0 <= i < |s| ==> !IsUpper(s[i])
    ensures Lower(s) == s
  {
  }

  // ---------------------------------------------------------------------------
  // trim()

  /** The suffix left after removing the maximal run of leading whitespace. */
  function TrimStart(s: string): (r: string)
    ensures |r| <= |s| && r == s[|s| - |r|..]
    ensures forall i :: 0 <= i < |s| - |r| ==> IsSpace(s[i])
    ensures r == [] || !IsSpace(r[0])
    decreases |s|
  {
    if |s| > 0 && IsSpace(s[0]) then TrimStart(s[1..]) else s
  }

  /** The prefix left after removing the maximal run of trailing whitespace. */
  function TrimEnd(s: string): (r: string)
    ensures |r| <= |s| && r == s[..|r|]
    ensures forall i :: |r| <= i < |s| ==> IsSpace(s[i])
    ensures r == [] || !IsSpace(r[|r| - 1])
    decreases |s|
  {
    if |s| > 0 && IsSpace(s[|s| - 1]) then TrimEnd(s[..|s| - 1]) else s
  }

  /** `String.prototype.trim`: the result neither starts nor ends with whitespace, and it is
      empty exactly when the input is all whitespace. */
  function Trim(s: string): (r: string)
    ensures r == [] || (!IsSpace(r[0]) && !IsSpace(r[|r| - 1]))
    ensures r == [] <==> (forall i :: 0 <= i < |s| ==> IsSpace(s[i]))
    ensures NoSpace(s) ==> r == s
  {
    TrimFacts(s);
    TrimEnd(TrimStart(s))
  }

  lemma TrimFacts(s: string)
    ensures var r := TrimEnd(TrimStart(s));
      && (r == [] || (!IsSpace(r[0]) && !IsSpace(r[|r| - 1])))
      && (r == [] <==> (forall i :: 0 <= i < |s| ==> IsSpace(s[i])))
      && (NoSpace(s) ==> r == s)
  {
    var t := TrimStart(s);
    var r := TrimEnd(t);
    assert r != [] ==> r[0] == t[0];
    if r == [] {
      assert forall i :: 0 <= i < |t| ==> IsSpace(t[i]);
    }
    if NoSpace(s) {
      assert t == s;
    }
  }

  /** A string without leading or trailing whitespace is its own trim. */
  lemma TrimOfTrimmed(s: string)
    requires s == [] || (!IsSpace(s[0]) && !IsSpace(s[|s| - 1]))
    ensures Trim(s) == s
  {
    assert TrimStart(s) == s;
    assert TrimEnd(s) == s;
  }

  predicate AllSpace(s: string) {
    forall i :: 0 <= i < |s| ==> IsSpace(s[i])
  }

  lemma {:induction false} TrimStartPadded(pre: string, x: string)
    requires AllSpace(pre)
    requires x == [] || !IsSpace(x[0])
    ensures TrimStart(pre + x) == x
    decreases |pre|
  {
    if pre == [] {
      assert pre + x == x;
    } else {
      assert (pre + x)[1..] == pre[1..] + x;
      TrimStartPadded(pre[1..], x);
    }
  }

  lemma {:induction false} TrimEndPadded(x: string, suf: string)
    requires AllSpace(suf)
    requires x == [] || !IsSpace(x[|x| - 1])
    ensures TrimEnd(x + suf) == x
    decreases |suf|
  {
    if suf == [] {
      assert x + suf == x;
    } else {
      var n := |suf| - 1;
      assert (x + suf)[..|x + suf| - 1] == x + suf[..n];
      TrimEndPadded(x, suf[..n]);
    }
  }

  /** Whitespace around a string without whitespace at its ends is exactly what `trim()`
      removes. */
  lemma TrimPadded(pre: string, core: string, suf: string)
    requires AllSpace(pre) && AllSpace(suf)
    requires core == [] || (!IsSpace(core[0]) && !IsSpace(core[|core| - 1]))
    ensures Trim(pre + core + suf) == core
  {
    var m := pre + core + suf;
    if core == [] {
      assert m == pre + suf;
      assert forall i :: 0 <= i < |m| ==> IsSpace(m[i]);
    } else {
      assert m == pre + (core + suf);
      TrimStartPadded(pre, core + suf);
      TrimEndPadded(core, suf);
    }
  }

  /** A string with no capital letters and no whitespace at either end is left unchanged by
      trimming and lower-casing. */
  lemma LowerTrimFixed(s: string)
    requires s == [] || (!IsSpace(s[0]) && !IsSpace(s[|s| - 1]))
    requires forall i :: 0 <= i < |s| ==> !IsUpper(s[i])
    ensures Lower(Trim(s)) == s
  {
    TrimOfTrimmed(s);
    LowerOfLower(s);
    assert Lower(Trim(s)) == Lower(s);
  }

  lemma TrimIdempotent(s: string)
    ensures Trim(Trim(s)) == Trim(s)
  {
    TrimOfTrimmed(Trim(s));
  }

  lemma {:induction false} LowerTrimStart(s: string)
    ensures Lower(TrimStart(s)) == TrimStart(Lower(s))
    decreases |s|
  {
    if |s| > 0 && IsSpace(s[0]) {
      assert Lower(s)[1..] == Lower(s[1..]);
      LowerTrimStart(s[1..]);
    }
  }

  lemma {:induction false} LowerTrimEnd(s: string)
    ensures Lower(TrimEnd(s)) == TrimEnd(Lower(s))
    decreases |s|
  {
    if |s| > 0 && IsSpace(s[|s| - 1]) {
      assert Lower(s)[..|s| - 1] == Lower(s[..|s| - 1]);
      LowerTrimEnd(s[..|s| - 1]);
    }
  }

  /** Lower-casing never creates or removes whitespace, so it commutes with `trim()`. */
  lemma LowerTrim(s: string)
    ensures Lower(Trim(s)) == Trim(Lower(s))
  {
    LowerTrimStart(s);
    LowerTrimEnd(TrimStart(s));
  }

  // ---------------------------------------------------------------------------
  // split(/\s+/)

  /** Index of the first whitespace character at or after `i`, or `|s|`. */
  function SpaceIndex(s: string, i: nat): (j: nat)
    requires i <= |s|
    ensures i <= j <= |s|
    ensures forall k :: i <= k < j ==> !IsSpace(s[k])
    ensures j < |s| ==> IsSpace(s[j])
    decreases |s| - i
  {
    if i == |s| || IsSpace(s[i]) then i else SpaceIndex(s, i + 1)
  }

  /** Index of the first non-whitespace character at or after `i`, or `|s|`. */
  function SkipSpaces(s: string, i: nat): (j: nat)
    requires i <= |s|
    ensures i <= j <= |s|
    ensures forall k :: i <= k < j ==> IsSpace(s[k])
    ensures j < |s| ==> !IsSpace(s[j])
    decreases |s| - i
  {
    if i == |s| || !IsSpace(s[i]) then i else SkipSpaces(s, i + 1)
  }

  /** `s.split(/\s+/)`: the pieces between maximal whitespace runs, with an empty piece at
      either end when `s` starts or ends with whitespace (and `[""]` for the empty string). */
  function SplitWs(s: string): (r: seq<string>)
    ensures |r| >= 1
    ensures forall k :: 0 <= k < |r| ==> NoSpace(r[k])
    decreases |s|
  {
    var i := SpaceIndex(s, 0);
    if i == |s| then [s]
    else
      var j := SkipSpaces(s, i);
      [s[..i]] + SplitWs(s[j..])
  }

  /** When the text has no whitespace at either end, no piece of the split is empty. */
  lemma {:induction false} SplitTrimmedPiecesNonEmpty(s: string)
    requires s != [] && !IsSpace(s[0]) && !IsSpace(s[|s| - 1])
    ensures forall k :: 0 <= k < |SplitWs(s)| ==> SplitWs(s)[k] != []
    decreases |s|
  {
    var i := SpaceIndex(s, 0);
    if i < |s| {
      var j := SkipSpaces(s, i);
      assert j < |s|;
      var rest := s[j..];
      assert rest[0] == s[j] && rest[|rest| - 1] == s[|s| - 1];
      SplitTrimmedPiecesNonEmpty(rest);
      assert SplitWs(s) == [s[..i]] + SplitWs(rest);
      assert i > 0;
    }
  }

  /** Two whitespace-free words joined by one space split back into those two words. */
  lemma SplitTwoWords(a: string, b: string)
    requires NoSpace(a) && NoSpace(b)
    ensures SplitWs(a + " " + b) == [a, b]
  {
    var s := a + " " + b;
    assert s[|a|] == ' ';
    assert SpaceIndex(s, 0) == |a|;
    assert SkipSpaces(s, |a|) == |a| + 1;
    assert s[..|a|] == a && s[|a| + 1..] == b;
    assert SpaceIndex(b, 0) == |b|;
  }

  // ---------------------------------------------------------------------------
  // .length

  /** JavaScript's `length`: UTF-16 code units, two for code points beyond U+FFFF. */
  function Utf16Length(s: string): (n: nat)
    ensures |s| <= n <= 2 * |s|
  {
    if |s| == 0 then 0 else (if s[0] as int > 0xFFFF then 2 else 1) + Utf16Length(s[1..])
  }

  /** Within the Basic Multilingual Plane the UTF-16 length is the code-point count; beyond
      it, twice the count. */
  lemma {:induction false} Utf16LengthBmp(s: string)
    ensures (forall i :: 0 <= i < |s| ==> s[i] as int <= 0xFFFF) ==> Utf16Length(s) == |s|
    ensures (forall i :: 0 <= i < |s| ==> s[i] as int > 0xFFFF) ==> Utf16Length(s) == 2 * |s|
  {
    if |s| > 0 {
      Utf16LengthBmp(s[1..]);
      assert forall i :: 0 <= i < |s[1..]| ==> s[1..][i] == s[i + 1];
    }
  }

  // ---------------------------------------------------------------------------
  // Searching and rewriting

  predicate StartsWith(s: string, p: string) {
    |p| <= |s| && s[..|p|] == p
  }

  predicate EndsWith(s: string, p: string) {
    |p| <= |s| && s[|s| - |p|..] == p
  }

  predicate OccursAt(s: string, p: string, i: int) {
    0 <= i && i + |p| <= |s| && s[i..i + |p|] == p
  }

  /** `s.includes(p)`. */
  predicate Contains(s: string, p: string) {
    exists i | 0 <= i <= |s| - |p| :: OccursAt(s, p, i)
  }

  /** `s.indexOf(p, from)`: the leftmost occurrence at or after `from`. */
  function IndexOf(s: string, p: string, from: nat): (r: Option<nat>)
    ensures r.Some? ==> from <= r.value && OccursAt(s, p, r.value)
    ensures r.Some? ==> forall j :: from <= j < r.value ==> !OccursAt(s, p, j)
    ensures r.None? ==> forall j :: from <= j ==> !OccursAt(s, p, j)
    decreases |s| - from
  {
    if from + |p| > |s| then None
    else if s[from..from + |p|] == p then Some(from)
    else IndexOf(s, p, from + 1)
  }

  lemma ContainsSelf(p: string)
    ensures Contains(p, p)
  {
    assert OccursAt(p, p, 0);
  }

  /** An occurrence inside `x` is still one inside any text built around `x`. */
  lemma ContainsWithin(a: string, x: string, b: string, p: string)
    requires Contains(x, p)
    ensures Contains(a + x + b, p)
  {
    var i :| 0 <= i <= |x| - |p| && OccursAt(x, p, i);
    var w := a + x + b;
    assert w[|a| + i..|a| + i + |p|] == x[i..i + |p|];
    assert OccursAt(w, p, |a| + i);
  }

  lemma ContainsIndexOf(s: string, p: string)
    ensures Contains(s, p) <==> IndexOf(s, p, 0).Some?
  {
    if IndexOf(s, p, 0).Some? {
      var i := IndexOf(s, p, 0).value;
      assert OccursAt(s, p, i);
    }
  }

  /** `s.replace(p, rep)` with a string pattern: only the first occurrence is replaced. */
  function ReplaceFirst(s: string, p: string, rep: string): (r: string)
    ensures IndexOf(s, p, 0).None? ==> r == s
    ensures IndexOf(s, p, 0).Some? ==>
      var i := IndexOf(s, p, 0).value;
      r == s[..i] + rep + s[i + |p|..]
  {
    match IndexOf(s, p, 0)
    case None => s
    case Some(i) => s[..i] + rep + s[i + |p|..]
  }

  /** `s.split(c)[0]`: everything before the first `c`, or all of `s`. */
  function BeforeFirst(s: string, c: char): (r: string)
    ensures |r| <= |s| && r == s[..|r|]
    ensures c !in r
    ensures |r| < |s| ==> s[|r|] == c
  {
    if |s| == 0 || s[0] == c then "" else [s[0]] + BeforeFirst(s[1..], c)
  }

  /** A string without `c` is its own part before `c`, and stays so whatever follows a `c`
      appended to it. */
  lemma BeforeFirstSuffix(s: string, c: char, rest: string)
    requires c !in s
    ensures BeforeFirst(s, c) == s
    ensures BeforeFirst(s + [c] + rest, c) == s
  {
    var t := s + [c] + rest;
    assert t[|s|] == c && t[..|s|] == s;
  }

  // ---------------------------------------------------------------------------
  // Decimal formatting

  function DigitChar(d: nat): (c: char)
    requires d < 10
    ensures '0' <= c <= '9'
  {
    ('0' as int + d) as char
  }

  /** `${n}` for a non-negative integer. */
  function NatToString(n: nat): (r: string)
    ensures |r| >= 1
    ensures n >= 10 ==> |r| >= 2
    decreases n
  {
    if n < 10 then [DigitChar(n)] else NatToString(n / 10) + [DigitChar(n % 10)]
  }

  /** Different numbers print differently. */
  lemma {:induction false} NatToStringInjective(a: nat, b: nat)
    requires NatToString(a) == NatToString(b)
    ensures a == b
    decreases a
  {
    var sa, sb := NatToString(a), NatToString(b);
    if a < 10 && b < 10 {
      assert sa[0] == DigitChar(a) && sb[0] == DigitChar(b);
    } else if a < 10 || b < 10 {
      assert false;
    } else {
      var pa, pb := NatToString(a / 10), NatToString(b / 10);
      assert sa == pa + [DigitChar(a % 10)];
      assert sb == pb + [DigitChar(b % 10)];
      assert |pa| == |pb|;
      assert pa == sa[..|pa|] && pb == sb[..|pb|];
      assert DigitChar(a % 10) == sa[|pa|] == sb[|pb|] == DigitChar(b % 10);
      NatToStringInjective(a / 10, b / 10);
    }
  }

  // ---------------------------------------------------------------------------
  // JSON.stringify of a string

  function HexDigit(d: nat): (c: char)
    requires d < 16
  {
    if d < 10 then DigitChar(d) else ('a' as int + (d - 10)) as char
  }

  /** Characters `JSON.stringify` copies verbatim. */
  predicate JsonPlain(c: char) {
    c != '"' && c != '\\' && c as int >= 0x20
  }

  function JsonEscapeChar(c: char): (r: string)
    ensures JsonPlain(c) <==> r == [c]
  {
    if c == '"' then "\\\""
    else if c == '\\' then "\\\\"
    else if c == '\U{0008}' then "\\b"
    else if c == '\U{000C}' then "\\f"
    else if c == '\n' then "\\n"
    else if c == '\r' then "\\r"
    else if c == '\t' then "\\t"
    else if c as int < 0x20 then "\\u00" + [HexDigit(c as int / 16), HexDigit(c as int % 16)]
    else [c]
  }

  function JsonEscape(s: string): string {
    if |s| == 0 then "" else JsonEscapeChar(s[0]) + JsonEscape(s[1..])
  }

  /** `JSON.stringify(s)` for a string `s`. */
  function JsonString(s: string): string {
    "\"" + JsonEscape(s) + "\""
  }

  /** Text without quotes, backslashes or control characters is copied verbatim. */
  lemma {:induction false} JsonEscapePlain(s: string)
    requires forall i :: 0 <= i < |s| ==> JsonPlain(s[i])
    ensures JsonEscape(s) == s
  {
    if |s| > 0 {
      JsonEscapePlain(s[1..]);
      assert s == [s[0]] + s[1..];
    }
  }

  /** Escaping works character by character, so it distributes over concatenation. */
  lemma {:induction false} JsonEscapeConcat(a: string, b: string)
    ensures JsonEscape(a + b) == JsonEscape(a) + JsonEscape(b)
    decreases |a|
  {
    if |a| == 0 {
      assert a + b == b;
    } else {
      assert (a + b)[0] == a[0] && (a + b)[1..] == a[1..] + b;
      JsonEscapeConcat(a[1..], b);
      var c := JsonEscapeChar(a[0]);
      assert JsonEscape(a + b) == c + (JsonEscape(a[1..]) + JsonEscape(b));
      assert c + (JsonEscape(a[1..]) + JsonEscape(b)) == (c + JsonEscape(a[1..])) + JsonEscape(b);
    }
  }
}
