/** String operations of the JavaScript runtime that the application relies on:
    `trim`, the `\s` and `\w` regular-expression classes, `toLowerCase`,
    `toUpperCase` of one character, `startsWith`, `includes`, `split(',')[1]`
    and `Array.prototype.join`. */
module Text {
  import opened Wrappers

  /** The characters JavaScript's `\s` class matches; `String.prototype.trim`
      removes exactly these (white space and line terminators). */
  predicate IsSpace(c: char) {
    c == ' ' || c == '\t' || c == '\n' || c == '\r' || c == '\U{B}' || c == '\U{C}'
    || c == '\U{A0}' || c == '\U{1680}' || ('\U{2000}' <= c <= '\U{200A}')
    || c == '\U{2028}' || c == '\U{2029}' || c == '\U{202F}' || c == '\U{205F}'
    || c == '\U{3000}' || c == '\U{FEFF}'
  }

  /** The characters JavaScript's `\w` class matches. */
  predicate IsWordChar(c: char) {
    ('a' <= c <= 'z') || ('A' <= c <= 'Z') || ('0' <= c <= '9') || c == '_'
  }

  predicate AllSpace(s: string) {
    forall i :: 0 <= i < |s| ==> IsSpace(s[i])
  }

  /** Drops the leading white space: what a trailing `\s*` in a regular
      expression consumes, and the left half of `trim`. */
  function TrimStart(s: string): (r: string)
    ensures |r| <= |s| && r == s[|s| - |r|..]
    ensures r == [] || !IsSpace(r[0])
    ensures AllSpace(s[..|s| - |r|])
  {
    if s != [] && IsSpace(s[0]) then
      var r := TrimStart(s[1..]);
      assert forall i :: 1 <= i < |s| - |r| ==> s[1..][..|s| - 1 - |r|][i - 1] == s[i];
      r
    else s
  }

  /** Drops the trailing white space. */
  function TrimEnd(s: string): (r: string)
    ensures |r| <= |s| && r == s[..|r|]
    ensures r == [] || !IsSpace(r[|r| - 1])
    ensures AllSpace(s[|r|..])
  {
    if s != [] && IsSpace(s[|s| - 1]) then
      var r := TrimEnd(s[..|s| - 1]);
      assert s[|r|..] == s[..|s| - 1][|r|..] + [s[|s| - 1]];
      r
    else s
  }

  /** `String.prototype.trim`. */
  function Trim(s: string): (r: string)
    ensures r == [] || (!IsSpace(r[0]) && !IsSpace(r[|r| - 1]))
  {
    TrimEnd(TrimStart(s))
  }

  /** `!s.trim()` in JavaScript: the text holds nothing but white space. */
  predicate IsBlank(s: string) {
    Trim(s) == []
  }

  lemma {:induction false} BlankIffAllSpace(s: string)
    ensures IsBlank(s) <==> AllSpace(s)
  {
  }

  /** `toLowerCase` on one character (ASCII letters only). */
  function LowerChar(c: char): char {
    if 'A' <= c <= 'Z' then (c as int + 32) as char else c
  }

  /** `toUpperCase` on one character (ASCII letters only). */
  function UpperChar(c: char): char {
    if 'a' <= c <= 'z' then (c as int - 32) as char else c
  }

  /** `String.prototype.toLowerCase` (ASCII letters only). */
  function ToLower(s: string): (r: string)
    ensures |r| == |s| && forall i :: 0 <= i < |s| ==> r[i] == LowerChar(s[i])
  {
    seq(|s|, i requires 0 <= i < |s| => LowerChar(s[i]))
  }

  /** Lower-casing works character by character, so piece by piece. */
  lemma ToLowerAppend(a: string, b: string)
    ensures ToLower(a + b) == ToLower(a) + ToLower(b)
  {
  }

  predicate StartsWith(s: string, prefix: string) {
    |prefix| <= |s| && s[..|prefix|] == prefix
  }

  /** The rest of `s` after `prefix`, when `s` starts with it. */
  function AfterPrefix(s: string, prefix: string): Option<string> {
    if prefix == [] then Some(s)
    else if s != [] && s[0] == prefix[0] then AfterPrefix(s[1..], prefix[1..])
    else None
  }

  lemma {:induction false} AfterPrefixSpec(s: string, prefix: string)
    ensures AfterPrefix(s, prefix).Some? <==> StartsWith(s, prefix)
    ensures AfterPrefix(s, prefix).Some? ==> s == prefix + AfterPrefix(s, prefix).value
  {
    if prefix != [] && s != [] {
      AfterPrefixSpec(s[1..], prefix[1..]);
      if s[0] == prefix[0] {
        assert StartsWith(s, prefix) <==> StartsWith(s[1..], prefix[1..]) by {
          if StartsWith(s[1..], prefix[1..]) {
            assert s[..|prefix|] == [s[0]] + s[1..][..|prefix| - 1];
          }
          if StartsWith(s, prefix) {
            assert s[1..][..|prefix| - 1] == s[..|prefix|][1..];
          }
        }
        if AfterPrefix(s, prefix).Some? {
          assert s == [s[0]] + s[1..];
          assert prefix == [prefix[0]] + prefix[1..];
        }
      }
    }
  }

  lemma {:induction false} AfterPrefixOf(prefix: string, rest: string)
    ensures AfterPrefix(prefix + rest, prefix) == Some(rest)
    decreases |prefix|
  {
    if prefix != [] {
      assert (prefix + rest)[1..] == prefix[1..] + rest;
      AfterPrefixOf(prefix[1..], rest);
    } else {
      assert prefix + rest == rest;
    }
  }

  predicate OccursAt(s: string, t: string, i: int) {
    0 <= i && i + |t| <= |s| && s[i..i + |t|] == t
  }

  /** `String.prototype.includes`. */
  predicate Contains(s: string, t: string) {
    exists i | 0 <= i <= |s| :: OccursAt(s, t, i)
  }

  lemma ContainsEmpty(s: string)
    ensures Contains(s, [])
  {
    assert OccursAt(s, [], 0);
  }

  /** A text in which no two adjacent characters spell the first two
      characters of `t` cannot contain `t`. Used to evaluate `includes` on
      the application's fixed messages. */
  lemma NoLeadingPair(s: string, t: string)
    requires |t| >= 2
    requires forall i :: 0 <= i < |s| - 1 ==> s[i] != t[0] || s[i + 1] != t[1]
    ensures !Contains(s, t)
  {
    forall i | 0 <= i <= |s| ensures !OccursAt(s, t, i) {
      if i + |t| <= |s| {
        assert s[i..i + |t|][0] == s[i] && s[i..i + |t|][1] == s[i + 1];
      }
    }
  }

  /** Index of the first occurrence of `c` in `s` at or after `from`. */
  function IndexOf(s: string, c: char, from: nat): (r: Option<nat>)
    requires from <= |s|
    ensures r.Some? ==> from <= r.value < |s| && s[r.value] == c
    ensures r.Some? ==> forall j :: from <= j < r.value ==> s[j] != c
    ensures r.None? ==> forall j :: from <= j < |s| ==> s[j] != c
    decreases |s| - from
  {
    if from == |s| then None
    else if s[from] == c then Some(from)
    else IndexOf(s, c, from + 1)
  }

  /** `s.split(',')[1]` in JavaScript: the text between the first and the
      second comma (or the end), or `undefined` (None) without a comma. */
  function SecondCommaField(s: string): (r: Option<string>)
    ensures r.None? <==> (forall j :: 0 <= j < |s| ==> s[j] != ',')
    ensures r.Some? ==> forall j :: 0 <= j < |r.value| ==> r.value[j] != ','
    ensures r.Some? ==>
      (exists k :: 0 <= k < |s| && s[k] == ','
        && (forall j :: 0 <= j < k ==> s[j] != ',')
        && StartsWith(s[k + 1..], r.value)
        && (k + 1 + |r.value| == |s| || s[k + 1 + |r.value|] == ','))
  {
    match IndexOf(s, ',', 0)
    case None => None
    case Some(k) =>
      var end := match IndexOf(s, ',', k + 1) case None => |s| case Some(e) => e;
      var field := s[k + 1..end];
      assert forall j :: 0 <= j < |field| ==> field[j] == s[k + 1 + j];
      assert s[k + 1..][..|field|] == field;
      assert StartsWith(s[k + 1..], field);
      Some(field)
  }

  /** `Array.prototype.join(sep)`. */
  function Join(parts: seq<string>, sep: string): (r: string)
    ensures parts == [] ==> r == []
    ensures |parts| == 1 ==> r == parts[0]
  {
    if parts == [] then []
    else if |parts| == 1 then parts[0]
    else parts[0] + sep + Join(parts[1..], sep)
  }

  lemma {:induction false} JoinAppend(parts: seq<string>, last: string, sep: string)
    requires parts != []
    ensures Join(parts + [last], sep) == Join(parts, sep) + sep + last
  {
    if |parts| > 1 {
      assert (parts + [last])[1..] == parts[1..] + [last];
      JoinAppend(parts[1..], last, sep);
    } else {
      assert parts + [last] == [parts[0], last];
    }
  }
}
