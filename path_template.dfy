/**
 * `replacePathVariables` of helpers.ts (copied verbatim in hooks.ts): one global
 * `String.replace` with the pattern `/:([a-zA-Z0-9_]+)/g`, whose callback looks the name
 * up and keeps the placeholder when the lookup gives `undefined`.
 *
 * The regular-expression scan is `Scan`, which cuts the path into literal characters and
 * placeholders; the callback is `Substitute`; `Replace` puts them together.
 */
module PathTemplate {
  import opened JsValues
  import opened Pairs

  /** A path-variables object; `None` is a property whose value is `undefined`. */
  type PathVariables = Entries<Option<string>>

  /** The character class `[a-zA-Z0-9_]`. */
  predicate IsNameChar(c: char) {
    'a' <= c <= 'z' || 'A' <= c <= 'Z' || '0' <= c <= '9' || c == '_'
  }

  predicate IsName(s: string) {
    s != [] && forall i :: 0 <= i < |s| ==> IsNameChar(s[i])
  }

  /** The length of the longest prefix of `s` made of name characters (the greedy `+`). */
  function NameRunLength(s: string): (n: nat)
    ensures n <= |s|
  {
    if s != [] && IsNameChar(s[0]) then 1 + NameRunLength(s[1..]) else 0
  }

  /** The run is made of name characters and cannot be extended. */
  lemma {:induction false} NameRunIsMaximal(s: string)
    ensures forall i :: 0 <= i < NameRunLength(s) ==> IsNameChar(s[i])
    ensures NameRunLength(s) < |s| ==> !IsNameChar(s[NameRunLength(s)])
    decreases |s|
  {
    if s != [] && IsNameChar(s[0]) {
      NameRunIsMaximal(s[1..]);
      forall i | 1 <= i < NameRunLength(s)
        ensures IsNameChar(s[i])
      {
        assert s[i] == s[1..][i - 1];
      }
    }
  }

  datatype Segment = Literal(c: char) | Placeholder(name: string)

  /** The matches of the global pattern, left to right, with the characters between them. */
  function Scan(path: string): seq<Segment>
    decreases |path|
  {
    if path == [] then []
    else if path[0] == ':' && NameRunLength(path[1..]) > 0 then
      var n := NameRunLength(path[1..]);
      [Placeholder(path[1..1 + n])] + Scan(path[1 + n..])
    else
      [Literal(path[0])] + Scan(path[1..])
  }

  /** The source text of a segment. */
  function Text(seg: Segment): string {
    match seg
    case Literal(c) => [c]
    case Placeholder(name) => [':'] + name
  }

  function Unscan(segs: seq<Segment>): string {
    if segs == [] then [] else Text(segs[0]) + Unscan(segs[1..])
  }

  /** The replacement callback: the value when it is defined, else the placeholder itself. */
  function Substitute(name: string, vars: PathVariables): string {
    var found := Get(vars, name);
    if found.Some? && found.value.Some? then found.value.value else [':'] + name
  }

  function Expand(segs: seq<Segment>, vars: PathVariables): string {
    if segs == [] then []
    else
      (match segs[0]
       case Literal(c) => [c]
       case Placeholder(name) => Substitute(name, vars)) + Expand(segs[1..], vars)
  }

  function Replace(path: string, vars: PathVariables): string {
    Expand(Scan(path), vars)
  }

  /** A segment list that a scan could have produced: placeholders are maximal runs, and
      no literal `:` stands right before a name character. */
  predicate WellFormed(segs: seq<Segment>) {
    forall i :: 0 <= i < |segs| ==> SegmentFits(segs[i], segs[i + 1..])
  }

  predicate SegmentFits(seg: Segment, rest: seq<Segment>) {
    match seg
    case Placeholder(name) => IsName(name) && !StartsWithNameChar(rest)
    case Literal(c) => c == ':' ==> !StartsWithNameChar(rest)
  }

  predicate StartsWithNameChar(segs: seq<Segment>) {
    segs != [] && segs[0].Literal? && IsNameChar(segs[0].c)
  }

  /** Nothing to substitute: every name is absent or `undefined`. */
  ghost predicate NoDefinedValue(vars: PathVariables) {
    forall name :: Get(vars, name).None? || Get(vars, name).value.None?
  }

  // ---------------------------------------------------------------------------------
  // The scan

  lemma ScanHead(path: string)
    ensures StartsWithNameChar(Scan(path)) <==> path != [] && IsNameChar(path[0])
  {
  }

  lemma UnscanHead(segs: seq<Segment>)
    ensures StartsWithNameChar(segs) <==> Unscan(segs) != [] && IsNameChar(Unscan(segs)[0])
  {
    if segs != [] {
      assert Unscan(segs) == Text(segs[0]) + Unscan(segs[1..]);
      assert Unscan(segs)[0] == Text(segs[0])[0];
    }
  }

  /** The scan loses nothing: the text outside placeholders is copied, placeholders keep their text. */
  lemma {:induction false} ScanUnscan(path: string)
    ensures Unscan(Scan(path)) == path
    decreases |path|
  {
    if path != [] {
      var segs := Scan(path);
      var rest: string;
      if path[0] == ':' && NameRunLength(path[1..]) > 0 {
        var n := NameRunLength(path[1..]);
        rest := path[1 + n..];
        assert segs == [Placeholder(path[1..1 + n])] + Scan(rest);
        assert path == Text(segs[0]) + rest;
      } else {
        rest := path[1..];
        assert segs == [Literal(path[0])] + Scan(rest);
        assert path == Text(segs[0]) + rest;
      }
      assert segs[1..] == Scan(rest);
      ScanUnscan(rest);
      assert Unscan(segs) == Text(segs[0]) + Unscan(segs[1..]);
    }
  }

  /** Every placeholder the scan finds is a maximal run of name characters after a colon. */
  lemma {:induction false} ScanWellFormed(path: string)
    ensures WellFormed(Scan(path))
    decreases |path|
  {
    if path == [] {
    } else {
      var segs := Scan(path);
      var rest: string;
      if path[0] == ':' && NameRunLength(path[1..]) > 0 {
        var n := NameRunLength(path[1..]);
        NameRunIsMaximal(path[1..]);
        rest := path[1 + n..];
        assert rest != [] ==> rest[0] == path[1..][n];
        assert IsName(path[1..1 + n]) by {
          assert forall i :: 0 <= i < n ==> path[1..1 + n][i] == path[1..][i];
        }
      } else {
        rest := path[1..];
      }
      assert segs[1..] == Scan(rest);
      ScanWellFormed(rest);
      ScanHead(rest);
      forall i | 0 <= i < |segs|
        ensures SegmentFits(segs[i], segs[i + 1..])
      {
        if i > 0 {
          assert segs[i] == segs[1..][i - 1];
          assert segs[i + 1..] == segs[1..][i..];
        }
      }
    }
  }

  lemma {:induction false} NameRunOfName(name: string, rest: string)
    requires IsName(name)
    requires rest == [] || !IsNameChar(rest[0])
    ensures NameRunLength(name + rest) == |name|
    decreases |name|
  {
    ConsAppend(name, rest);
    if |name| > 1 {
      NameRunOfName(name[1..], rest);
    } else {
      assert name[1..] + rest == rest;
    }
  }

  lemma WellFormedTail(segs: seq<Segment>)
    requires segs != [] && WellFormed(segs)
    ensures WellFormed(segs[1..])
    ensures SegmentFits(segs[0], segs[1..])
  {
    var rest := segs[1..];
    forall i | 0 <= i < |rest|
      ensures SegmentFits(rest[i], rest[i + 1..])
    {
      assert rest[i] == segs[i + 1] && rest[i + 1..] == segs[i + 2..];
    }
  }

  /** Scanning the text of a fitting head segment followed by `tail` yields that segment first. */
  lemma ScanOfHead(seg: Segment, rest: seq<Segment>, tail: string)
    requires SegmentFits(seg, rest)
    requires StartsWithNameChar(rest) <==> tail != [] && IsNameChar(tail[0])
    ensures Scan(Text(seg) + tail) == [seg] + Scan(tail)
  {
    match seg
    case Literal(c) =>
      ThreeParts(c, [], tail);
      assert [c] + [] + tail == Text(seg) + tail;
      if c == ':' {
        assert NameRunLength(tail) == 0;
      }
      ScanLiteralHead(Text(seg) + tail);
    case Placeholder(name) =>
      ThreeParts(':', name, tail);
      NameRunOfName(name, tail);
      ScanPlaceholderHead(Text(seg) + tail, |name|);
  }

  /** Only one segment list fits a path: the scan is the unique well-formed reading of its text. */
  lemma {:induction false} ScanUnique(segs: seq<Segment>)
    requires WellFormed(segs)
    ensures Scan(Unscan(segs)) == segs
  {
    if segs != [] {
      var rest := segs[1..];
      WellFormedTail(segs);
      ScanUnique(rest);
      UnscanHead(rest);
      ScanOfHead(segs[0], rest, Unscan(rest));
      assert Unscan(segs) == Text(segs[0]) + Unscan(rest);
      assert segs == [segs[0]] + rest;
    }
  }

  // ---------------------------------------------------------------------------------
  // Substitution

  lemma {:induction false} ExpandAppend(a: seq<Segment>, b: seq<Segment>, vars: PathVariables)
    ensures Expand(a + b, vars) == Expand(a, vars) + Expand(b, vars)
  {
    if a == [] {
      assert a + b == b;
    } else {
      assert (a + b)[0] == a[0];
      assert (a + b)[1..] == a[1..] + b;
      ExpandAppend(a[1..], b, vars);
    }
  }

  lemma NameRunOfAppend(s: string, rest: string)
    requires rest == [] || !IsNameChar(rest[0])
    ensures NameRunLength(s + rest) == NameRunLength(s)
    decreases |s|
  {
    if s == [] {
      assert s + rest == rest;
    } else {
      assert (s + rest)[0] == s[0];
      assert (s + rest)[1..] == s[1..] + rest;
      NameRunOfAppend(s[1..], rest);
    }
  }

  /** The scan of a path whose first character does not start a placeholder. */
  lemma ScanLiteralHead(path: string)
    requires path != [] && !(path[0] == ':' && NameRunLength(path[1..]) > 0)
    ensures Scan(path) == [Literal(path[0])] + Scan(path[1..])
  {
  }

  /** The scan of a path that starts with a placeholder of `n` name characters. */
  lemma ScanPlaceholderHead(path: string, n: nat)
    requires path != [] && path[0] == ':' && n == NameRunLength(path[1..]) > 0
    ensures Scan(path) == [Placeholder(path[1..1 + n])] + Scan(path[1 + n..])
  {
  }

  /** Appending text that cannot continue a name does not change how a placeholder head reads. */
  lemma ScanPlaceholderHeadAppend(a: string, b: string, n: nat)
    requires b == [] || !IsNameChar(b[0])
    requires a != [] && a[0] == ':' && n == NameRunLength(a[1..]) > 0
    ensures Scan(a + b) == [Placeholder(a[1..1 + n])] + Scan(a[1 + n..] + b)
  {
    HeadRunAppend(a, b, n);
    NameRunOfAppend(a[1..], b);
    ScanPlaceholderHead(a + b, n);
  }

  lemma ScanLiteralHeadAppend(a: string, b: string)
    requires b == [] || !IsNameChar(b[0])
    requires a != [] && !(a[0] == ':' && NameRunLength(a[1..]) > 0)
    ensures Scan(a + b) == [Literal(a[0])] + Scan(a[1..] + b)
  {
    ConsAppend(a, b);
    NameRunOfAppend(a[1..], b);
    ScanLiteralHead(a + b);
  }

  lemma {:induction false} ScanAppend(a: string, b: string)
    requires b == [] || !IsNameChar(b[0])
    ensures Scan(a + b) == Scan(a) + Scan(b)
    decreases |a|
  {
    if a == [] {
      assert a + b == b;
    } else {
      var n := NameRunLength(a[1..]);
      if a[0] == ':' && n > 0 {
        ScanAppend(a[1 + n..], b);
        ScanAppendPlaceholderStep(a, b, n);
      } else {
        ScanAppend(a[1..], b);
        ScanAppendLiteralStep(a, b);
      }
    }
  }

  lemma ScanAppendPlaceholderStep(a: string, b: string, n: nat)
    requires b == [] || !IsNameChar(b[0])
    requires a != [] && a[0] == ':' && n == NameRunLength(a[1..]) > 0
    requires Scan(a[1 + n..] + b) == Scan(a[1 + n..]) + Scan(b)
    ensures Scan(a + b) == Scan(a) + Scan(b)
  {
    ScanPlaceholderHeadAppend(a, b, n);
    ScanPlaceholderHead(a, n);
    Regroup(Scan(a + b), Scan(a[1 + n..] + b), Scan(a), [Placeholder(a[1..1 + n])], Scan(a[1 + n..]), Scan(b));
  }

  lemma ScanAppendLiteralStep(a: string, b: string)
    requires b == [] || !IsNameChar(b[0])
    requires a != [] && !(a[0] == ':' && NameRunLength(a[1..]) > 0)
    requires Scan(a[1..] + b) == Scan(a[1..]) + Scan(b)
    ensures Scan(a + b) == Scan(a) + Scan(b)
  {
    ScanLiteralHeadAppend(a, b);
    ScanLiteralHead(a);
    Regroup(Scan(a + b), Scan(a[1..] + b), Scan(a), [Literal(a[0])], Scan(a[1..]), Scan(b));
  }

  /** Single pass: a path cut before a character that cannot continue a name is rewritten
      piece by piece, so text produced by a substitution is never scanned again. */
  lemma ReplaceAppend(a: string, b: string, vars: PathVariables)
    requires b == [] || !IsNameChar(b[0])
    ensures Replace(a + b, vars) == Replace(a, vars) + Replace(b, vars)
  {
    ScanAppend(a, b);
    ExpandAppend(Scan(a), Scan(b), vars);
  }

  /** A placeholder at the head of a path: a defined value (even "" or "0") replaces it, an
      absent or `undefined` name leaves `:name` in place; the rest is rewritten on its own. */
  lemma ReplacePlaceholder(name: string, rest: string, vars: PathVariables)
    requires IsName(name)
    requires rest == [] || !IsNameChar(rest[0])
    ensures Get(vars, name).Some? && Get(vars, name).value.Some? ==>
              Replace([':'] + name + rest, vars) == Get(vars, name).value.value + Replace(rest, vars)
    ensures Get(vars, name).None? || Get(vars, name).value.None? ==>
              Replace([':'] + name + rest, vars) == [':'] + name + Replace(rest, vars)
  {
    var path := [':'] + name + rest;
    assert path[1..] == name + rest;
    NameRunOfName(name, rest);
    assert path[1..1 + |name|] == name;
    assert path[1 + |name|..] == rest;
    assert Scan(path) == [Placeholder(name)] + Scan(rest);
  }

  lemma {:induction false} ExpandUnchanged(segs: seq<Segment>, vars: PathVariables)
    requires NoDefinedValue(vars)
    ensures Expand(segs, vars) == Unscan(segs)
  {
    if segs != [] {
      ExpandUnchanged(segs[1..], vars);
      match segs[0]
      case Literal(c) =>
      case Placeholder(name) =>
        assert Get(vars, name).None? || Get(vars, name).value.None?;
    }
  }

  /** Without a defined value (in particular with `{}`) the path comes back unchanged. */
  lemma ReplaceWithoutValues(path: string, vars: PathVariables)
    requires NoDefinedValue(vars)
    ensures Replace(path, vars) == path
  {
    ExpandUnchanged(Scan(path), vars);
    ScanUnscan(path);
  }

  lemma ReplaceEmpty(path: string)
    ensures Replace(path, []) == path
  {
    ReplaceWithoutValues(path, []);
  }

  lemma {:induction false} ExpandRespectsContent(segs: seq<Segment>, a: PathVariables, b: PathVariables)
    requires forall name :: Get(a, name) == Get(b, name)
    ensures Expand(segs, a) == Expand(segs, b)
  {
    if segs != [] {
      ExpandRespectsContent(segs[1..], a, b);
      match segs[0]
      case Literal(c) =>
      case Placeholder(name) =>
        assert Get(a, name) == Get(b, name);
    }
  }

  /** Only what each name looks up to matters, not the object's key order. */
  lemma ReplaceRespectsContent(path: string, a: PathVariables, b: PathVariables)
    requires forall name :: Get(a, name) == Get(b, name)
    ensures Replace(path, a) == Replace(path, b)
  {
    ExpandRespectsContent(Scan(path), a, b);
  }

  /** Reading the text of well-formed segments back rewrites each segment on its own. */
  lemma ReplaceUnscan(segs: seq<Segment>, vars: PathVariables)
    requires WellFormed(segs)
    ensures Replace(Unscan(segs), vars) == Expand(segs, vars)
  {
    ScanUnique(segs);
  }

  /** A path that is one placeholder becomes its value when defined, else stays as it is. */
  lemma LonePlaceholder(name: string, vars: PathVariables)
    requires IsName(name)
    ensures Replace([':'] + name, vars) == Substitute(name, vars)
  {
    assert [':'] + name + "" == [':'] + name;
    ReplacePlaceholder(name, "", vars);
    assert Replace("", vars) == "";
  }

  /** A substituted value that itself looks like a placeholder is emitted as it is. */
  lemma NoRescan()
    ensures Replace(":a", [("a", Some(":b")), ("b", Some("x"))]) == ":b"
  {
    var vars: PathVariables := [("a", Some(":b")), ("b", Some("x"))];
    assert ValuesOf(vars, "a") == [Some(":b")];
    ReplacePlaceholder("a", "", vars);
    assert [':'] + "a" + "" == ":a";
  }
}
