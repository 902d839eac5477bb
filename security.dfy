/**
 * The string validators and transformers of the security utilities:
 * input sanitising, the URL-parameter and e-mail checks, password rules,
 * redaction of sensitive keys and HTML escaping. Regular expressions are
 * written out as the character-level functions they compute.
 */
module Security {
  import opened Wrappers
  import opened Text

  // ------------------------------------------------------------ whitespace

  /**
   * JavaScript's `\s`, which is also the set `trim` removes: the ASCII
   * blanks, the line terminators, no-break space, the byte order mark and
   * the Unicode space separators.
   */
  predicate IsWs(c: char) {
    || c == '\t' || c == '\n' || c == '\U{B}' || c == '\U{C}' || c == '\r' || c == ' '
    || c == '\U{A0}' || c == '\U{1680}' || ('\U{2000}' <= c <= '\U{200A}')
    || c == '\U{2028}' || c == '\U{2029}' || c == '\U{202F}' || c == '\U{205F}'
    || c == '\U{3000}' || c == '\U{FEFF}'
  }

  /** Drops the leading whitespace (`trimStart`), leaving a suffix. */
  function TrimStart(s: string): (r: string)
    ensures |r| <= |s| && r == s[|s| - |r|..]
    ensures r == [] || !IsWs(r[0])
    ensures forall i :: 0 <= i < |s| - |r| ==> IsWs(s[i])
  {
    if s != [] && IsWs(s[0]) then TrimStart(s[1..]) else s
  }

  /** Drops the trailing whitespace (`trimEnd`), leaving a prefix. */
  function TrimEnd(s: string): (r: string)
    ensures |r| <= |s| && r == s[..|r|]
    ensures r == [] || !IsWs(r[|r| - 1])
    ensures forall i :: |r| <= i < |s| ==> IsWs(s[i])
  {
    if s != [] && IsWs(s[|s| - 1]) then TrimEnd(s[..|s| - 1]) else s
  }

  /** `trim`: a slice of the input that neither starts nor ends with whitespace. */
  function Trim(s: string): (r: string)
    ensures exists a, b :: 0 <= a <= b <= |s| && r == s[a..b]
    ensures r == [] || (!IsWs(r[0]) && !IsWs(r[|r| - 1]))
  {
    var t := TrimStart(s);
    var r := TrimEnd(t);
    assert r == s[|s| - |t|..|s| - |t| + |r|];
    r
  }

  /** Whitespace only as single spaces: the shape `replace(/\s+/g, ' ')` leaves. */
  predicate SingleSpaced(s: string) {
    forall i :: 0 <= i < |s| && IsWs(s[i]) ==> s[i] == ' ' && (i + 1 < |s| ==> !IsWs(s[i + 1]))
  }

  /** `replace(/\s+/g, ' ')`: every maximal run of whitespace becomes one space. */
  function Collapse(s: string): (r: string)
    ensures |r| <= |s|
    ensures r == [] <==> s == []
    ensures s != [] && !IsWs(s[0]) ==> r[0] == s[0]
    ensures s != [] && IsWs(s[0]) ==> r[0] == ' '
    ensures s != [] && !IsWs(s[|s| - 1]) ==> r[|r| - 1] == s[|s| - 1]
    decreases |s|
  {
    if s == [] then []
    else if IsWs(s[0]) then
      var rest := TrimStart(s);
      assert rest != [] ==> rest[|rest| - 1] == s[|s| - 1];
      " " + Collapse(rest)
    else
      [s[0]] + Collapse(s[1..])
  }

  lemma SingleSpacedCons(c: char, t: string)
    requires SingleSpaced(t)
    requires IsWs(c) ==> c == ' ' && (t == [] || !IsWs(t[0]))
    ensures SingleSpaced([c] + t)
  {
    var r := [c] + t;
    forall i | 0 <= i < |r| && IsWs(r[i]) ensures r[i] == ' ' && (i + 1 < |r| ==> !IsWs(r[i + 1])) {
      if i > 0 {
        assert r[i] == t[i - 1];
        if i + 1 < |r| {
          assert r[i + 1] == t[i];
        }
      }
    }
  }

  /** After collapsing, whitespace occurs only as single spaces. */
  lemma {:induction false} CollapseIsSingleSpaced(s: string)
    ensures SingleSpaced(Collapse(s))
    decreases |s|
  {
    if s != [] {
      if IsWs(s[0]) {
        var rest := TrimStart(s);
        CollapseIsSingleSpaced(rest);
        SingleSpacedCons(' ', Collapse(rest));
      } else {
        CollapseIsSingleSpaced(s[1..]);
        SingleSpacedCons(s[0], Collapse(s[1..]));
      }
    }
  }

  /** Collapsing only writes spaces and characters of its input. */
  lemma {:induction false} CollapseChars(s: string)
    ensures forall c :: c in Collapse(s) && c != ' ' ==> c in s
    decreases |s|
  {
    if s != [] {
      var rest := if IsWs(s[0]) then TrimStart(s) else s[1..];
      CollapseChars(rest);
      assert rest == s[|s| - |rest|..];
      assert forall c :: c in rest ==> c in s;
      var r := Collapse(s);
      assert r == [r[0]] + Collapse(rest);
    }
  }

  lemma SingleSpacedTail(s: string)
    requires s != [] && SingleSpaced(s)
    ensures SingleSpaced(s[1..])
    ensures IsWs(s[0]) ==> s[0] == ' ' && (s[1..] == [] || !IsWs(s[1..][0]))
  {
    var t := s[1..];
    forall i | 0 <= i < |t| && IsWs(t[i]) ensures t[i] == ' ' && (i + 1 < |t| ==> !IsWs(t[i + 1])) {
      assert t[i] == s[i + 1];
      if i + 1 < |t| {
        assert t[i + 1] == s[i + 2];
      }
    }
  }

  /** A single-spaced string is already collapsed. */
  lemma {:induction false} CollapseSingleSpaced(s: string)
    requires SingleSpaced(s)
    ensures Collapse(s) == s
    decreases |s|
  {
    if s != [] {
      var t := s[1..];
      SingleSpacedTail(s);
      CollapseSingleSpaced(t);
      if IsWs(s[0]) {
        assert TrimStart(t) == t;
        assert TrimStart(s) == t;
        assert Collapse(s) == " " + t;
      } else {
        assert Collapse(s) == [s[0]] + t;
      }
      assert s == [s[0]] + t;
    }
  }

  // ------------------------------------------------------------ tags

  /** No '<' is followed, anywhere later, by a '>': nothing tag-shaped is left. */
  predicate NoTag(s: string) {
    forall i, j :: 0 <= i < j < |s| && s[i] == '<' ==> s[j] != '>'
  }

  lemma NoTagSlice(s: string, a: int, b: int)
    requires NoTag(s) && 0 <= a <= b <= |s|
    ensures NoTag(s[a..b])
  {
    var t := s[a..b];
    forall i, j | 0 <= i < j < |t| && t[i] == '<' ensures t[j] != '>' {
      assert t[i] == s[a + i] && t[j] == s[a + j];
    }
  }

  /** The position of the first `c` in `s`, or -1. */
  function FindChar(s: string, c: char): (i: int)
    ensures -1 <= i < |s|
    ensures i >= 0 ==> s[i] == c && c !in s[..i]
    ensures i == -1 <==> c !in s
  {
    if s == [] then -1
    else if s[0] == c then 0
    else
      var k := FindChar(s[1..], c);
      assert k >= 0 ==> s[..k + 1] == [s[0]] + s[1..][..k];
      if k == -1 then -1 else k + 1
  }

  /**
   * `replace(/<[^>]*>/g, '')`: scanning left to right, a '<' that has a '>'
   * somewhere after it is removed together with everything up to and
   * including the first such '>'; a '<' with no '>' after it stays.
   */
  function StripTags(s: string): (r: string)
    ensures |r| <= |s|
    ensures forall c :: c in r ==> c in s
    decreases |s|
  {
    if s == [] then []
    else if s[0] == '<' && '>' in s[1..] then
      var j := FindChar(s[1..], '>') + 1;
      var rest := StripTags(s[j + 1..]);
      assert forall c :: c in s[j + 1..] ==> c in s;
      rest
    else
      var rest := StripTags(s[1..]);
      assert forall c :: c in s[1..] ==> c in s;
      [s[0]] + rest
  }

  /** After tag stripping no '<' has a '>' after it. */
  lemma {:induction false} StripTagsLeavesNoTag(s: string)
    ensures NoTag(StripTags(s))
    decreases |s|
  {
    if s != [] {
      if s[0] == '<' && '>' in s[1..] {
        var j := FindChar(s[1..], '>') + 1;
        StripTagsLeavesNoTag(s[j + 1..]);
      } else {
        StripTagsLeavesNoTag(s[1..]);
        var rest := StripTags(s[1..]);
        var r := [s[0]] + rest;
        forall i, j | 0 <= i < j < |r| && r[i] == '<' ensures r[j] != '>' {
          if i == 0 {
            assert r[j] == rest[j - 1];
            assert rest[j - 1] in s[1..];
          } else {
            assert r[i] == rest[i - 1] && r[j] == rest[j - 1];
          }
        }
      }
    }
  }

  /** Text without anything tag-shaped passes through untouched. */
  lemma {:induction false} StripTagsNoTag(s: string)
    requires NoTag(s)
    ensures StripTags(s) == s
    decreases |s|
  {
    if s != [] {
      if s[0] == '<' {
        forall k | 0 <= k < |s[1..]| ensures s[1..][k] != '>' {
          assert s[1..][k] == s[k + 1];
        }
      }
      NoTagSlice(s, 1, |s|);
      StripTagsNoTag(s[1..]);
    }
  }

  /** The first '>' of `t + ">" + b`, when `t` has none, is the one after `t`. */
  lemma FindCloseAfter(t: string, b: string)
    requires '>' !in t
    ensures FindChar(t + ">" + b, '>') == |t|
  {
    var u := t + ">" + b;
    assert u[|t|] == '>';
  }

  /** A tag at the front is removed. */
  lemma StripTagsLeadingTag(t: string, b: string)
    requires '>' !in t
    ensures StripTags("<" + t + ">" + b) == StripTags(b)
  {
    var s := "<" + t + ">" + b;
    var u := t + ">" + b;
    assert s[1..] == u;
    FindCloseAfter(t, b);
    assert u[|t|] == '>';
    assert s[|t| + 2..] == b;
  }

  /** Text without '<' in front of anything passes through and the rest is stripped. */
  lemma {:induction false} StripTagsPlainPrefix(a: string, x: string)
    requires '<' !in a
    ensures StripTags(a + x) == a + StripTags(x)
    decreases |a|
  {
    if a == [] {
      assert a + x == x;
    } else {
      assert '<' !in a[1..] by {
        assert forall c :: c in a[1..] ==> c in a;
      }
      StripTagsPlainPrefix(a[1..], x);
      StripTagsPlainStep(a, x);
    }
  }

  lemma StripTagsPlainStep(a: string, x: string)
    requires a != [] && a[0] != '<'
    requires StripTags(a[1..] + x) == a[1..] + StripTags(x)
    ensures StripTags(a + x) == a + StripTags(x)
  {
    var c, a' := a[0], a[1..];
    assert a == [c] + a';
    ConsAppend(c, a', x);
    ConsAppend(c, a', StripTags(x));
    StripTagsCons(c, a' + x);
  }

  lemma ConsAppend(c: char, a': string, y: string)
    ensures [c] + a' + y == [c] + (a' + y)
    ensures ([c] + a')[1..] == a' && ([c] + a')[0] == c
  {
  }

  /** A tag after tag-free text is removed and the text before it kept. */
  lemma StripTagsRemovesTag(a: string, t: string, b: string)
    requires '<' !in a && '>' !in t
    ensures StripTags(a + "<" + t + ">" + b) == a + StripTags(b)
  {
    var x := "<" + t + ">" + b;
    Assoc4(a, "<", t, ">", b);
    StripTagsPlainPrefix(a, x);
    StripTagsLeadingTag(t, b);
  }

  lemma Assoc4(a: string, p: string, t: string, q: string, b: string)
    ensures a + p + t + q + b == a + (p + t + q + b)
  {
  }

  /** A character other than '<' in front is kept. */
  lemma StripTagsCons(c: char, rest: string)
    requires c != '<'
    ensures StripTags([c] + rest) == [c] + StripTags(rest)
  {
    assert ([c] + rest)[1..] == rest;
  }

  // ------------------------------------------------------------ scripts

  const ScriptOpen: string := "<script"
  const ScriptClose: string := "</script>"

  /** The characters of `\w`: the boundary `\b` after "<script" needs a character outside them. */
  predicate IsWordChar(c: char) {
    ('a' <= c <= 'z') || ('A' <= c <= 'Z') || ('0' <= c <= '9') || c == '_'
  }

  /**
   * Where a match of the case-insensitive script pattern that starts at the
   * front of `s` ends, or -1. The pattern wants "<script", a word boundary,
   * and then runs exactly to the first "</script>" after it: its middle may
   * hold a '<' only where no "</script>" starts.
   */
  function ScriptMatchEnd(s: string): (e: int)
    ensures e == -1 || |ScriptOpen| + |ScriptClose| <= e <= |s|
  {
    if |s| >= |ScriptOpen| && Lower(s[..|ScriptOpen|]) == ScriptOpen
       && (|s| == |ScriptOpen| || !IsWordChar(s[|ScriptOpen|]))
    then
      var k := IndexOf(Lower(s[|ScriptOpen|..]), ScriptClose);
      if k >= 0 then |ScriptOpen| + k + |ScriptClose| else -1
    else -1
  }

  /** `replace(/<script\b[^<]*(?:(?!<\/script>)<[^<]*)*<\/script>/gi, '')`. */
  function RemoveScripts(s: string): (r: string)
    ensures |r| <= |s|
    decreases |s|
  {
    if s == [] then []
    else
      var e := ScriptMatchEnd(s);
      if e > 0 then RemoveScripts(s[e..]) else [s[0]] + RemoveScripts(s[1..])
  }

  /** A character whose lower case is not a letter is itself. */
  lemma LowerFixed(c: char, d: char)
    requires LowerChar(c) == d && !('a' <= d <= 'z')
    ensures c == d
  {
  }

  lemma OpenStartsWithLt(s: string)
    requires |s| >= |ScriptOpen| && Lower(s[..|ScriptOpen|]) == ScriptOpen
    ensures s[0] == '<'
  {
    assert Lower(s[..|ScriptOpen|])[0] == LowerChar(s[0]);
    LowerFixed(s[0], '<');
  }

  lemma CloseEndsWithGt(u: string, k: int)
    requires OccursAt(Lower(u), ScriptClose, k)
    ensures u[k + |ScriptClose| - 1] == '>'
  {
    var l := Lower(u);
    assert l[k..k + |ScriptClose|][|ScriptClose| - 1] == l[k + |ScriptClose| - 1];
    LowerFixed(u[k + |ScriptClose| - 1], '>');
  }

  /** Every script match starts with '<' and ends with '>'. */
  lemma ScriptMatchShape(s: string)
    ensures ScriptMatchEnd(s) != -1 ==> s[0] == '<' && s[ScriptMatchEnd(s) - 1] == '>'
  {
    if |s| >= |ScriptOpen| && Lower(s[..|ScriptOpen|]) == ScriptOpen
       && (|s| == |ScriptOpen| || !IsWordChar(s[|ScriptOpen|]))
    {
      var u := s[|ScriptOpen|..];
      var k := IndexOf(Lower(u), ScriptClose);
      if k >= 0 {
        OpenStartsWithLt(s);
        CloseEndsWithGt(u, k);
        assert u[k + |ScriptClose| - 1] == s[|ScriptOpen| + k + |ScriptClose| - 1];
      }
    }
  }

  /** So tag-free text holds no script match. */
  lemma NoScriptMatch(s: string)
    requires NoTag(s)
    ensures ScriptMatchEnd(s) == -1
  {
    ScriptMatchShape(s);
  }

  /** On tag-stripped text the script pass is the identity. */
  lemma {:induction false} RemoveScriptsNoTag(s: string)
    requires NoTag(s)
    ensures RemoveScripts(s) == s
    decreases |s|
  {
    if s != [] {
      NoScriptMatch(s);
      NoTagSlice(s, 1, |s|);
      RemoveScriptsNoTag(s[1..]);
    }
  }

  // ------------------------------------------------------------ sanitizeInput

  /** What sanitised text looks like: nothing tag-shaped, trimmed, single-spaced. */
  predicate Clean(s: string) {
    && NoTag(s)
    && (s == [] || (!IsWs(s[0]) && !IsWs(s[|s| - 1])))
    && SingleSpaced(s)
  }

  /**
   * `sanitizeInput`: the empty string stays empty; otherwise tags are
   * stripped, script elements removed, the ends trimmed and whitespace runs
   * collapsed. The result is never longer than the input.
   */
  function SanitizeInput(input: string): (r: string)
    ensures input == [] ==> r == []
    ensures |r| <= |input|
  {
    if input == [] then []
    else Collapse(Trim(RemoveScripts(StripTags(input))))
  }

  lemma NoTagCons(c: char, t: string)
    requires NoTag(t) && (c == '<' ==> '>' !in t)
    ensures NoTag([c] + t)
  {
    var r := [c] + t;
    forall i, j | 0 <= i < j < |r| && r[i] == '<' ensures r[j] != '>' {
      assert r[j] == t[j - 1];
      if i > 0 {
        assert r[i] == t[i - 1];
      }
    }
  }

  lemma NoTagHead(s: string)
    requires NoTag(s) && s != [] && s[0] == '<'
    ensures '>' !in s[1..]
  {
    forall k | 0 <= k < |s[1..]| ensures s[1..][k] != '>' {
      assert s[1..][k] == s[k + 1];
    }
  }

  /** Collapsing keeps tag-free text tag-free: it only drops whitespace or rewrites it to ' '. */
  lemma {:induction false} CollapseKeepsNoTag(s: string)
    requires NoTag(s)
    ensures NoTag(Collapse(s))
    decreases |s|
  {
    if s != [] {
      if IsWs(s[0]) {
        var rest := TrimStart(s);
        NoTagSlice(s, |s| - |rest|, |s|);
        CollapseKeepsNoTag(rest);
        NoTagCons(' ', Collapse(rest));
      } else {
        NoTagSlice(s, 1, |s|);
        CollapseKeepsNoTag(s[1..]);
        CollapseChars(s[1..]);
        if s[0] == '<' {
          NoTagHead(s);
        }
        NoTagCons(s[0], Collapse(s[1..]));
      }
    }
  }

  /** Trimming and collapsing tag-free text leaves clean text. */
  lemma TrimCollapseIsClean(x: string)
    requires NoTag(x)
    ensures Clean(Collapse(Trim(x)))
  {
    var t := Trim(x);
    var a, b :| 0 <= a <= b <= |x| && t == x[a..b];
    NoTagSlice(x, a, b);
    CollapseKeepsNoTag(t);
    CollapseIsSingleSpaced(t);
  }

  /** Sanitised text is clean: no tags, no whitespace at either end, single spaces only. */
  lemma SanitizedIsClean(input: string)
    ensures Clean(SanitizeInput(input))
  {
    if input != [] {
      var stripped := StripTags(input);
      StripTagsLeavesNoTag(input);
      RemoveScriptsNoTag(stripped);
      TrimCollapseIsClean(stripped);
    }
  }

  /** Clean text is a fixed point of sanitising. */
  lemma SanitizeClean(s: string)
    requires Clean(s)
    ensures SanitizeInput(s) == s
  {
    if s != [] {
      StripTagsNoTag(s);
      RemoveScriptsNoTag(s);
      assert TrimStart(s) == s;
      assert TrimEnd(s) == s;
      CollapseSingleSpaced(s);
    }
  }

  /** Sanitising twice gives the same as sanitising once. */
  lemma SanitizeIdempotent(input: string)
    ensures SanitizeInput(SanitizeInput(input)) == SanitizeInput(input)
  {
    SanitizedIsClean(input);
    SanitizeClean(SanitizeInput(input));
  }

  // ------------------------------------------------------------ isValidUrlParam

  /** The unreserved characters of section 2.3 of RFC 3986: ALPHA / DIGIT / "-" / "." / "_" / "~". */
  predicate Unreserved(c: char) {
    ('a' <= c <= 'z') || ('A' <= c <= 'Z') || ('0' <= c <= '9') || c == '-' || c == '.' || c == '_' || c == '~'
  }

  /** `/^[a-zA-Z0-9\-_.~]+$/.test(input)`: one or more characters, each matching the class. */
  function IsValidUrlParam(input: string): (b: bool)
    ensures b <==> |input| > 0 && forall i :: 0 <= i < |input| ==> Unreserved(input[i])
  {
    |input| > 0 && Unreserved(input[0]) && (|input| == 1 || IsValidUrlParam(input[1..]))
  }

  // ------------------------------------------------------------ redactSensitiveData

  /** The values the redacted records carry (objects and arrays are not part of this model). */
  datatype Value = Str(s: string) | Num(n: int) | Bool(b: bool) | Null

  const Redacted: Value := Str("[REDACTED]")

  /** The default `keysToRedact`. */
  const DefaultKeysToRedact: seq<string> := ["password", "token", "secret", "apiKey", "authorization"]

  /** The lower-cased key contains one of the lower-cased redaction keys. */
  predicate IsSensitive(dataKey: string, keysToRedact: seq<string>) {
    exists n :: 0 <= n < |keysToRedact| && Contains(Lower(dataKey), Lower(keysToRedact[n]))
  }

  lemma SensitiveSnoc(dataKey: string, keysToRedact: seq<string>, n: int)
    requires 0 <= n < |keysToRedact|
    ensures IsSensitive(dataKey, keysToRedact[..n + 1])
        <==> IsSensitive(dataKey, keysToRedact[..n]) || Contains(Lower(dataKey), Lower(keysToRedact[n]))
  {
    var ks := keysToRedact[..n + 1];
    if IsSensitive(dataKey, ks) {
      var m :| 0 <= m < |ks| && Contains(Lower(dataKey), Lower(ks[m]));
      if m < n {
        assert keysToRedact[..n][m] == ks[m];
      }
    }
    if IsSensitive(dataKey, keysToRedact[..n]) {
      var m :| 0 <= m < n && Contains(Lower(dataKey), Lower(keysToRedact[..n][m]));
      assert ks[m] == keysToRedact[..n][m];
    }
    if Contains(Lower(dataKey), Lower(keysToRedact[n])) {
      assert ks[n] == keysToRedact[n];
    }
  }

  /**
   * `redactSensitiveData`: a copy of the record with the same keys in which
   * exactly the sensitive keys hold '[REDACTED]' and every other value is
   * the original. The input record is a value and is not changed.
   */
  method RedactSensitiveData(data: map<string, Value>, keysToRedact: seq<string>) returns (redacted: map<string, Value>)
    ensures redacted.Keys == data.Keys
    ensures forall k :: k in data ==> redacted[k] == if IsSensitive(k, keysToRedact) then Redacted else data[k]
  {
    redacted := data;
    var n := 0;
    while n < |keysToRedact|
      invariant 0 <= n <= |keysToRedact|
      invariant redacted.Keys == data.Keys
      invariant forall k :: k in data ==> redacted[k] == if IsSensitive(k, keysToRedact[..n]) then Redacted else data[k]
    {
      var lowerKey := Lower(keysToRedact[n]);
      var remaining := redacted.Keys;
      while remaining != {}
        invariant remaining <= data.Keys
        invariant redacted.Keys == data.Keys
        invariant forall k :: k in data && k !in remaining ==>
          redacted[k] == if IsSensitive(k, keysToRedact[..n + 1]) then Redacted else data[k]
        invariant forall k :: k in remaining ==>
          redacted[k] == if IsSensitive(k, keysToRedact[..n]) then Redacted else data[k]
        decreases remaining
      {
        var dataKey :| dataKey in remaining;
        SensitiveSnoc(dataKey, keysToRedact, n);
        if Contains(Lower(dataKey), lowerKey) {
          redacted := redacted[dataKey := Redacted];
        }
        remaining := remaining - {dataKey};
      }
      n := n + 1;
    }
    assert keysToRedact[..n] == keysToRedact;
  }

  // ------------------------------------------------------------ isValidEmail

  /** One part of the e-mail pattern: `[^\s@]+`. */
  predicate EmailPart(t: string) {
    |t| > 0 && forall k :: 0 <= k < |t| ==> !IsWs(t[k]) && t[k] != '@'
  }

  /** `/^[^\s@]+@[^\s@]+\.[^\s@]+$/.test(email)`: local part, '@', domain name, '.', last label. */
  predicate IsValidEmail(email: string) {
    exists i, j ::
      && 0 <= i < j < |email| && email[i] == '@' && email[j] == '.'
      && EmailPart(email[..i]) && EmailPart(email[i + 1..j]) && EmailPart(email[j + 1..])
  }

  /**
   * A valid address has exactly one '@' and no whitespace, a non-empty part
   * before the '@', and a '.' after the '@' that is neither the first
   * character of the domain nor the last; and every such string is valid.
   */
  lemma EmailCharacterisation(email: string)
    ensures IsValidEmail(email) <==>
      && (forall k :: 0 <= k < |email| ==> !IsWs(email[k]))
      && exists i ::
        && 0 < i < |email| && email[i] == '@'
        && (forall k :: 0 <= k < |email| && email[k] == '@' ==> k == i)
        && (exists d :: i + 1 < d < |email| - 1 && email[d] == '.')
  {
    if IsValidEmail(email) {
      var i, j :| 0 <= i < j < |email| && email[i] == '@' && email[j] == '.'
        && EmailPart(email[..i]) && EmailPart(email[i + 1..j]) && EmailPart(email[j + 1..]);
      forall k | 0 <= k < |email| ensures !IsWs(email[k]) && (email[k] == '@' ==> k == i) {
        if k < i {
          assert email[..i][k] == email[k];
        } else if i < k < j {
          assert email[i + 1..j][k - i - 1] == email[k];
        } else if j < k {
          assert email[j + 1..][k - j - 1] == email[k];
        }
      }
    }
    forall i, d | 0 < i < |email| && email[i] == '@'
        && (forall k :: 0 <= k < |email| ==> !IsWs(email[k]))
        && (forall k :: 0 <= k < |email| && email[k] == '@' ==> k == i)
        && i + 1 < d < |email| - 1 && email[d] == '.'
      ensures IsValidEmail(email)
    {
      assert EmailPart(email[..i]);
      assert EmailPart(email[i + 1..d]);
      assert EmailPart(email[d + 1..]);
    }
  }

  // ------------------------------------------------------------ validatePassword

  /** `password.length`: UTF-16 code units, two for a character outside the Basic Multilingual Plane. */
  function Utf16Length(s: string): (n: nat)
    ensures |s| <= n <= 2 * |s|
  {
    if s == [] then 0 else (if s[0] as int >= 0x1_0000 then 2 else 1) + Utf16Length(s[1..])
  }

  predicate HasCharIn(s: string, lo: char, hi: char) {
    exists i :: 0 <= i < |s| && lo <= s[i] <= hi
  }

  const TooShort: string := "Password must be at least 8 characters long"
  const NoUppercase: string := "Password must contain at least one uppercase letter"
  const NoLowercase: string := "Password must contain at least one lowercase letter"
  const NoNumber: string := "Password must contain at least one number"

  datatype PasswordCheck = PasswordCheck(isValid: bool, message: Option<string>)

  /** The messages of every rule the password breaks, in the order the rules are listed. */
  function FailedRules(password: string): seq<string> {
    (if Utf16Length(password) < 8 then [TooShort] else [])
    + (if !HasCharIn(password, 'A', 'Z') then [NoUppercase] else [])
    + (if !HasCharIn(password, 'a', 'z') then [NoLowercase] else [])
    + (if !HasCharIn(password, '0', '9') then [NoNumber] else [])
  }

  /**
   * `validatePassword`: valid exactly when the password has at least eight
   * code units, an upper-case letter, a lower-case letter and a digit; a
   * rejection carries the message of the first rule broken.
   */
  function ValidatePassword(password: string): (r: PasswordCheck)
    ensures r.isValid <==>
      && Utf16Length(password) >= 8 && HasCharIn(password, 'A', 'Z')
      && HasCharIn(password, 'a', 'z') && HasCharIn(password, '0', '9')
    ensures r.isValid <==> FailedRules(password) == []
    ensures r.isValid <==> r.message.None?
    ensures !r.isValid ==> r.message == Some(FailedRules(password)[0])
  {
    if Utf16Length(password) < 8 then PasswordCheck(false, Some(TooShort))
    else if !HasCharIn(password, 'A', 'Z') then PasswordCheck(false, Some(NoUppercase))
    else if !HasCharIn(password, 'a', 'z') then PasswordCheck(false, Some(NoLowercase))
    else if !HasCharIn(password, '0', '9') then PasswordCheck(false, Some(NoNumber))
    else PasswordCheck(true, None)
  }

  // ------------------------------------------------------------ escapeHtml

  /** The characters `escapeHtml` rewrites. */
  predicate Special(c: char) {
    c == '&' || c == '<' || c == '>' || c == '"' || c == '\'' || c == '/'
  }

  /** The `htmlEscapeMap` entry of a character, or the character itself. */
  function EscapeChar(c: char): (r: string)
    ensures !Special(c) ==> r == [c]
    ensures Special(c) ==> |r| >= 4 && r[0] == '&' && r[|r| - 1] == ';'
    ensures forall i :: 0 <= i < |r| ==> r[i] == c || !Special(r[i]) || r[i] == '&'
  {
    match c
    case '&' => "&amp;"
    case '<' => "&lt;"
    case '>' => "&gt;"
    case '"' => "&quot;"
    case '\'' => "&#x27;"
    case '/' => "&#x2F;"
    case _ => [c]
  }

  /** `str.replace(/[&<>"'/]/g, ...)`: each character replaced by its escape. */
  function EscapeHtml(s: string): (r: string)
    ensures |r| >= |s|
    ensures forall i :: 0 <= i < |r| ==> !Special(r[i]) || r[i] == '&'
    ensures (forall i :: 0 <= i < |s| ==> !Special(s[i])) ==> r == s
  {
    if s == [] then []
    else
      var head := EscapeChar(s[0]);
      var tail := EscapeHtml(s[1..]);
      assert forall i :: 0 <= i < |head| ==> !Special(head[i]) || head[i] == '&' by {
        forall i | 0 <= i < |head| ensures !Special(head[i]) || head[i] == '&' {
          if Special(s[0]) {
            assert head[i] != s[0] || s[0] == '&';
          }
        }
      }
      head + tail
  }

  /** Escaping works character by character. */
  lemma {:induction false} EscapeAppend(a: string, b: string)
    ensures EscapeHtml(a + b) == EscapeHtml(a) + EscapeHtml(b)
  {
    if a == [] {
      assert a + b == b;
    } else {
      assert (a + b)[0] == a[0];
      assert (a + b)[1..] == a[1..] + b;
      EscapeAppend(a[1..], b);
    }
  }

  /** Decodes the six entities `escapeHtml` produces. */
  function Unescape(t: string): string
    decreases |t|
  {
    if t == [] then []
    else if IsPrefix("&amp;", t) then "&" + Unescape(t[5..])
    else if IsPrefix("&lt;", t) then "<" + Unescape(t[4..])
    else if IsPrefix("&gt;", t) then ">" + Unescape(t[4..])
    else if IsPrefix("&quot;", t) then "\"" + Unescape(t[6..])
    else if IsPrefix("&#x27;", t) then "'" + Unescape(t[6..])
    else if IsPrefix("&#x2F;", t) then "/" + Unescape(t[6..])
    else [t[0]] + Unescape(t[1..])
  }

  lemma UnescapeAmp(tail: string)
    ensures Unescape("&amp;" + tail) == "&" + Unescape(tail)
  {
    var t := "&amp;" + tail;
    assert IsPrefix("&amp;", t) && t[5..] == tail;
  }

  lemma UnescapeLt(tail: string)
    ensures Unescape("&lt;" + tail) == "<" + Unescape(tail)
  {
    var t := "&lt;" + tail;
    assert !IsPrefix("&amp;", t) by { assert t[1] == 'l'; }
    assert IsPrefix("&lt;", t) && t[4..] == tail;
  }

  lemma UnescapeGt(tail: string)
    ensures Unescape("&gt;" + tail) == ">" + Unescape(tail)
  {
    var t := "&gt;" + tail;
    assert !IsPrefix("&amp;", t) && !IsPrefix("&lt;", t) by { assert t[1] == 'g'; }
    assert IsPrefix("&gt;", t) && t[4..] == tail;
  }

  lemma UnescapeQuot(tail: string)
    ensures Unescape("&quot;" + tail) == "\"" + Unescape(tail)
  {
    var t := "&quot;" + tail;
    assert !IsPrefix("&amp;", t) && !IsPrefix("&lt;", t) && !IsPrefix("&gt;", t) by { assert t[1] == 'q'; }
    assert IsPrefix("&quot;", t) && t[6..] == tail;
  }

  lemma UnescapeApos(tail: string)
    ensures Unescape("&#x27;" + tail) == "'" + Unescape(tail)
  {
    var t := "&#x27;" + tail;
    assert !IsPrefix("&amp;", t) && !IsPrefix("&lt;", t) && !IsPrefix("&gt;", t) && !IsPrefix("&quot;", t) by {
      assert t[1] == '#';
    }
    assert IsPrefix("&#x27;", t) && t[6..] == tail;
  }

  lemma UnescapeSlash(tail: string)
    ensures Unescape("&#x2F;" + tail) == "/" + Unescape(tail)
  {
    var t := "&#x2F;" + tail;
    assert !IsPrefix("&amp;", t) && !IsPrefix("&lt;", t) && !IsPrefix("&gt;", t) && !IsPrefix("&quot;", t) by {
      assert t[1] == '#';
    }
    assert !IsPrefix("&#x27;", t) by { assert t[4] == 'F'; }
    assert IsPrefix("&#x2F;", t) && t[6..] == tail;
  }

  lemma UnescapePlain(c: char, tail: string)
    requires !Special(c)
    ensures Unescape([c] + tail) == [c] + Unescape(tail)
  {
    var t := [c] + tail;
    assert t[0] == c && t[1..] == tail;
    PrefixHead("&amp;", t);
    PrefixHead("&lt;", t);
    PrefixHead("&gt;", t);
    PrefixHead("&quot;", t);
    PrefixHead("&#x27;", t);
    PrefixHead("&#x2F;", t);
  }

  lemma PrefixHead(p: string, t: string)
    requires |p| > 0
    ensures IsPrefix(p, t) ==> t[0] == p[0]
  {
    if IsPrefix(p, t) {
      assert t[..|p|][0] == t[0];
    }
  }

  /** Decoding an escaped character in front of more text gives the character back. */
  lemma UnescapeChar(c: char, tail: string)
    ensures Unescape(EscapeChar(c) + tail) == [c] + Unescape(tail)
  {
    match c
    case '&' => UnescapeAmp(tail);
    case '<' => UnescapeLt(tail);
    case '>' => UnescapeGt(tail);
    case '"' => UnescapeQuot(tail);
    case '\'' => UnescapeApos(tail);
    case '/' => UnescapeSlash(tail);
    case _ => UnescapePlain(c, tail);
  }

  /** Escaping loses nothing: decoding the entities gives the original text back. */
  lemma {:induction false} EscapeRoundTrip(s: string)
    ensures Unescape(EscapeHtml(s)) == s
  {
    if s != [] {
      EscapeRoundTrip(s[1..]);
      UnescapeChar(s[0], EscapeHtml(s[1..]));
      assert s == [s[0]] + s[1..];
    }
  }

  /** Distinct texts have distinct escapes. */
  lemma EscapeInjective(a: string, b: string)
    requires EscapeHtml(a) == EscapeHtml(b)
    ensures a == b
  {
    EscapeRoundTrip(a);
    EscapeRoundTrip(b);
  }

  /** A valid URL parameter passes through sanitising and escaping unchanged. */
  lemma UrlParamIsInert(input: string)
    requires IsValidUrlParam(input)
    ensures SanitizeInput(input) == input
    ensures EscapeHtml(input) == input
  {
    assert forall i :: 0 <= i < |input| ==> !IsWs(input[i]) && input[i] != '<' && !Special(input[i]);
    assert Clean(input);
    SanitizeClean(input);
  }
}
