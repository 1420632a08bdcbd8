/**
 * The few JavaScript string primitives the dashboard relies on: white space as
 * `String.prototype.trim` and the regular-expression class `\s` see it,
 * `toLowerCase` on ASCII letters, `includes`, `startsWith`, `Array.prototype.join`,
 * and the e-mail pattern `/^[^\s@]+@[^\s@]+\.[^\s@]+$/` used by the CSV importer.
 * Strings are sequences of Unicode scalar values.
 */
module JsStrings {

  /** The WhiteSpace and LineTerminator characters of ECMAScript (section 12.2 and 12.3 of ECMA-262). */
  predicate IsSpace(c: char) {
    || c == ' ' || c == '\t' || c == '\n' || c == '\r' || c == '\U{000B}' || c == '\U{000C}'
    || c == '\U{00A0}' || c == '\U{1680}' || ('\U{2000}' <= c <= '\U{200A}')
    || c == '\U{2028}' || c == '\U{2029}' || c == '\U{202F}' || c == '\U{205F}'
    || c == '\U{3000}' || c == '\U{FEFF}'
  }

  predicate AllSpace(s: string) {
    forall i | 0 <= i < |s| :: IsSpace(s[i])
  }

  /** `s.trimStart()`: drops the leading white space. */
  function TrimStart(s: string): (r: string)
    ensures |r| <= |s| && r == s[|s| - |r|..]
    ensures r == [] || !IsSpace(r[0])
    ensures AllSpace(s[..|s| - |r|])
  {
    if s != [] && IsSpace(s[0]) then TrimStart(s[1..]) else s
  }

  /** `s.trimEnd()`: drops the trailing white space. */
  function TrimEnd(s: string): (r: string)
    ensures |r| <= |s| && r == s[..|r|]
    ensures r == [] || !IsSpace(r[|r| - 1])
    ensures AllSpace(s[|r|..])
  {
    if s != [] && IsSpace(s[|s| - 1]) then TrimEnd(s[..|s| - 1]) else s
  }

  /** `s.trim()`. */
  function Trim(s: string): string {
    TrimEnd(TrimStart(s))
  }

  /** The string is empty once trimmed (`s.trim() === ''`), see `BlankIffTrimEmpty`. */
  predicate IsBlank(s: string) {
    AllSpace(s)
  }

  /** `s.trim()` is empty exactly when every character of `s` is white space. */
  lemma BlankIffTrimEmpty(s: string)
    ensures IsBlank(s) <==> Trim(s) == []
  {
  }

  /** A trimmed string neither starts nor ends with white space, so trimming it again changes nothing. */
  lemma TrimClean(s: string)
    ensures Trim(s) == [] || (!IsSpace(Trim(s)[0]) && !IsSpace(Trim(s)[|Trim(s)| - 1]))
    ensures Trim(Trim(s)) == Trim(s)
  {
    var t := TrimStart(s);
    var r := TrimEnd(t);
    if r != [] {
      assert r[0] == t[0];
      assert TrimStart(r) == r;
    }
  }

  /** ASCII case mapping, as `toLowerCase` does on the letters A to Z. */
  function LowerChar(c: char): char {
    if 'A' <= c <= 'Z' then (c as int - 'A' as int + 'a' as int) as char else c
  }

  /** `s.toLowerCase()` restricted to ASCII letters. */
  function ToLower(s: string): (r: string)
    ensures |r| == |s|
    ensures forall i | 0 <= i < |s| :: r[i] == LowerChar(s[i])
  {
    seq(|s|, i requires 0 <= i < |s| => LowerChar(s[i]))
  }

  /** Lower-casing twice is lower-casing once. */
  lemma ToLowerIdempotent(s: string)
    ensures ToLower(ToLower(s)) == ToLower(s)
  {
  }

  /** `s.startsWith(p)`. */
  predicate StartsWith(s: string, p: string) {
    |p| <= |s| && s[..|p|] == p
  }

  /** `t` occurs in `s` at position `i`. */
  predicate OccursAt(s: string, t: string, i: int) {
    0 <= i && i + |t| <= |s| && s[i..i + |t|] == t
  }

  /** `s.includes(t)`, computed by scanning `s` from the left. */
  function Includes(s: string, t: string): (r: bool)
    decreases |s|
  {
    StartsWith(s, t) || (s != [] && Includes(s[1..], t))
  }

  /** The scan agrees with the definition of `includes`: `t` occurs somewhere in `s`. */
  lemma {:induction false} IncludesIffOccurs(s: string, t: string)
    ensures Includes(s, t) <==> exists i :: OccursAt(s, t, i)
    decreases |s|
  {
    if s != [] {
      IncludesIffOccurs(s[1..], t);
    }
    if Includes(s, t) {
      if StartsWith(s, t) {
        assert OccursAt(s, t, 0);
      } else {
        var i :| OccursAt(s[1..], t, i);
        assert s[i + 1..i + 1 + |t|] == s[1..][i..i + |t|];
        assert OccursAt(s, t, i + 1);
      }
    }
    if exists i :: OccursAt(s, t, i) {
      var i :| OccursAt(s, t, i);
      if i == 0 {
        assert StartsWith(s, t);
      } else {
        assert s[1..][i - 1..i - 1 + |t|] == s[i..i + |t|];
        assert OccursAt(s[1..], t, i - 1);
      }
    }
  }

  /** Every string includes the empty string. */
  lemma IncludesEmpty(s: string)
    ensures Includes(s, "")
  {
    assert StartsWith(s, "");
  }

  /** A string includes itself followed by anything at its start. */
  lemma IncludesPrefix(s: string, t: string, u: string)
    requires s == t + u
    ensures Includes(s, t)
  {
    assert s[..|t|] == t;
  }

  /** `parts.join(sep)`. */
  function Join(parts: seq<string>, sep: string): (r: string)
    ensures parts == [] ==> r == []
    ensures |parts| == 1 ==> r == parts[0]
    ensures parts != [] ==> StartsWith(r, parts[0])
  {
    if parts == [] then []
    else if |parts| == 1 then parts[0]
    else parts[0] + sep + Join(parts[1..], sep)
  }

  /** Joining one more part appends the separator and that part, so the parts appear in their order. */
  lemma {:induction false} JoinSnoc(parts: seq<string>, p: string, sep: string)
    requires parts != []
    ensures Join(parts + [p], sep) == Join(parts, sep) + sep + p
    decreases |parts|
  {
    var ps := parts + [p];
    assert ps[0] == parts[0];
    if |parts| > 1 {
      assert ps[1..] == parts[1..] + [p];
      JoinSnoc(parts[1..], p, sep);
    } else {
      assert ps[1..] == [p];
    }
  }

  /** The separator count: the joined text is as long as the parts and one separator between each pair. */
  function TotalLength(parts: seq<string>): nat {
    if parts == [] then 0 else |parts[0]| + TotalLength(parts[1..])
  }

  lemma {:induction false} JoinLength(parts: seq<string>, sep: string)
    requires parts != []
    ensures |Join(parts, sep)| == TotalLength(parts) + (|parts| - 1) * |sep|
    decreases |parts|
  {
    if |parts| > 1 {
      JoinLength(parts[1..], sep);
    }
  }

  // ---- the e-mail pattern /^[^\s@]+@[^\s@]+\.[^\s@]+$/ ----

  /** A character the class `[^\s@]` admits. */
  predicate PlainChar(c: char) {
    !IsSpace(c) && c != '@'
  }

  predicate AllPlain(s: string) {
    forall i | 0 <= i < |s| :: PlainChar(s[i])
  }

  /**
   * The regular expression matches `s` with the `@` at `at` and the
   * backtracked `\.` at `dot`: three non-empty runs of `[^\s@]` around them.
   */
  ghost predicate EmailMatchAt(s: string, at: int, dot: int) {
    && 0 < at && at + 1 < dot && dot + 1 < |s|
    && s[at] == '@' && s[dot] == '.'
    && AllPlain(s[..at]) && AllPlain(s[at + 1..dot]) && AllPlain(s[dot + 1..])
  }

  /** What the regular expression accepts, stated as the existence of a match. */
  ghost predicate EmailMatches(s: string) {
    exists at, dot :: EmailMatchAt(s, at, dot)
  }

  /** Index of the first occurrence of `c` in `s`, or `|s|` when there is none. */
  function IndexOf(s: string, c: char): (r: nat)
    ensures r <= |s|
    ensures r < |s| ==> s[r] == c
    ensures forall i | 0 <= i < r :: s[i] != c
  {
    if s == [] then 0 else if s[0] == c then 0 else 1 + IndexOf(s[1..], c)
  }

  /**
   * The check the importer performs, written as a scan: no white space at all,
   * one `@` with something before it, no second `@`, and a `.` in the domain
   * with something on both sides.
   */
  predicate IsEmail(s: string) {
    var at := IndexOf(s, '@');
    && (forall i | 0 <= i < |s| :: !IsSpace(s[i]))
    && 0 < at < |s|
    && (forall i | at < i < |s| :: s[i] != '@')
    && exists dot | at + 1 < dot < |s| - 1 :: s[dot] == '.'
  }

  /** The scan accepts exactly the strings the regular expression matches. */
  lemma IsEmailIffMatches(s: string)
    ensures IsEmail(s) <==> EmailMatches(s)
  {
    if IsEmail(s) {
      var at := IndexOf(s, '@');
      var dot :| at + 1 < dot < |s| - 1 && s[dot] == '.';
      assert EmailMatchAt(s, at, dot);
    }
    if EmailMatches(s) {
      var at, dot :| EmailMatchAt(s, at, dot);
      assert forall i | 0 <= i < at :: s[i] == s[..at][i];
      assert forall i | at < i < dot :: s[i] == s[at + 1..dot][i - at - 1];
      assert forall i | dot < i < |s| :: s[i] == s[dot + 1..][i - dot - 1];
      assert IndexOf(s, '@') == at;
    }
  }
}
