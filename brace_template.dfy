/**
 * The older `replacePathVariables` of index.ts: the pattern `/\{([^}]+)\}/g`, whose callback
 * substitutes when the name is a key of the object (`key in pathVariables`), even when its
 * value is `undefined`, and otherwise keeps `{name}`.
 */
module BraceTemplate {
  import opened JsValues
  import opened Pairs
  import PathTemplate

  type PathVariables = PathTemplate.PathVariables
  type Segment = PathTemplate.Segment

  /** The position of the first `}` in `s`, if any. */
  function CloseIndex(s: string): (r: Option<nat>)
    ensures r.Some? ==> r.value < |s|
  {
    if s == [] then None
    else if s[0] == '}' then Some(0)
    else match CloseIndex(s[1..])
      case Some(i) => Some(i + 1)
      case None => None
  }

  /** The index found holds a `}` and none comes before it; without one, `s` has no `}`. */
  lemma {:induction false} CloseIndexIsFirst(s: string)
    ensures CloseIndex(s).Some? ==>
              s[CloseIndex(s).value] == '}' && forall i :: 0 <= i < CloseIndex(s).value ==> s[i] != '}'
    ensures CloseIndex(s).None? ==> forall i :: 0 <= i < |s| ==> s[i] != '}'
    decreases |s|
  {
    if s != [] && s[0] != '}' {
      CloseIndexIsFirst(s[1..]);
      forall i | 1 <= i < |s| && (CloseIndex(s).None? || i < CloseIndex(s).value)
        ensures s[i] != '}'
      {
        assert s[i] == s[1..][i - 1];
      }
    }
  }

  /** A run of at least one character other than `}`: the group `([^}]+)`. */
  predicate IsName(s: string) {
    s != [] && forall i :: 0 <= i < |s| ==> s[i] != '}'
  }

  /** The length of the name of the match `path` starts with: at a `{`, the text up to the next
      `}`; 0 when there is no `}` or nothing between the two. */
  function HeadName(path: string): (j: nat)
    ensures j > 0 ==> 2 + j <= |path|
  {
    if path != [] && path[0] == '{' then
      match CloseIndex(path[1..])
      case Some(close) => close
      case None => 0
    else 0
  }

  /** The matches of the global pattern, left to right; between them each character is copied. */
  function Scan(path: string): seq<Segment>
    decreases |path|
  {
    if path == [] then []
    else
      var j := HeadName(path);
      if j > 0 then [PathTemplate.Placeholder(path[1..1 + j])] + Scan(path[2 + j..])
      else [PathTemplate.Literal(path[0])] + Scan(path[1..])
  }

  function Text(seg: Segment): string {
    match seg
    case Literal(c) => [c]
    case Placeholder(name) => ['{'] + name + ['}']
  }

  function Unscan(segs: seq<Segment>): string {
    if segs == [] then [] else Text(segs[0]) + Unscan(segs[1..])
  }

  /** The replacement callback: any present key (`in`) is stringified, so a key whose value is
      `undefined` yields "undefined". */
  function Substitute(name: string, vars: PathVariables): string {
    if Has(vars, name) then Stringify(Get(vars, name).value) else ['{'] + name + ['}']
  }

  function Expand(segs: seq<Segment>, vars: PathVariables): string {
    if segs == [] then []
    else
      (match segs[0]
       case Literal(c) => [c]
       case Placeholder(name) => Substitute(name, vars)) + Expand(segs[1..], vars)
  }

  function Replace(path: string, vars: PathVariables): string {
    Expand(Scan(path), vars)
  }

  /** Every placeholder found is a non-empty run without `}`. */
  ghost predicate NamesFit(segs: seq<Segment>) {
    forall i :: 0 <= i < |segs| && segs[i].Placeholder? ==> IsName(segs[i].name)
  }

  /** The scan of a path that starts with a `{` closed `j` characters later. */
  lemma ScanPlaceholderHead(path: string, j: nat)
    requires HeadName(path) == j > 0
    ensures Scan(path) == [PathTemplate.Placeholder(path[1..1 + j])] + Scan(path[2 + j..])
  {
  }

  /** The scan of a path whose first character does not open a placeholder. */
  lemma ScanLiteralHead(path: string)
    requires path != [] && HeadName(path) == 0
    ensures Scan(path) == [PathTemplate.Literal(path[0])] + Scan(path[1..])
  {
  }

  /** A name is closed by the `}` right after it. */
  lemma HeadNameOfPlaceholder(name: string, rest: string)
    requires IsName(name)
    ensures HeadName(['{'] + name + ['}'] + rest) == |name|
  {
    var path := ['{'] + name + ['}'] + rest;
    var s := name + ['}'] + rest;
    EnclosedParts('{', name, '}', rest);
    assert path[1..] == s;
    assert s[|name|] == '}';
    assert forall i :: 0 <= i < |name| ==> s[i] == name[i];
    CloseIndexIsFirst(s);
  }

  /** A match is a `{`, a run without `}`, and the `}` closing it. */
  lemma HeadNameIsName(path: string)
    requires HeadName(path) > 0
    ensures var j := HeadName(path); path[0] == '{' && IsName(path[1..1 + j]) && path[1 + j] == '}'
  {
    var j := HeadName(path);
    var name := path[1..1 + j];
    CloseIndexIsFirst(path[1..]);
    forall i | 0 <= i < |name| ensures name[i] != '}' {
      assert name[i] == path[1..][i];
    }
    assert path[1..][j] == '}';
  }

  lemma UnscanCons(seg: Segment, segs: seq<Segment>)
    ensures Unscan([seg] + segs) == Text(seg) + Unscan(segs)
  {
    SingleCons(seg, segs);
  }

  lemma ExpandCons(seg: Segment, segs: seq<Segment>, vars: PathVariables)
    ensures Expand([seg] + segs, vars) ==
            (if seg.Literal? then [seg.c] else Substitute(seg.name, vars)) + Expand(segs, vars)
  {
    SingleCons(seg, segs);
  }

  /** The scan loses nothing and its placeholders are `{` + a run without `}` + `}`. */
  lemma {:induction false} ScanUnscan(path: string)
    ensures Unscan(Scan(path)) == path
    ensures NamesFit(Scan(path))
    decreases |path|
  {
    if path != [] {
      var j := HeadName(path);
      if j > 0 {
        ScanUnscan(path[2 + j..]);
        ScanUnscanPlaceholder(path, j);
      } else {
        ScanUnscan(path[1..]);
        ScanUnscanLiteral(path);
      }
    }
  }

  lemma ScanUnscanPlaceholder(path: string, j: nat)
    requires HeadName(path) == j > 0
    requires Unscan(Scan(path[2 + j..])) == path[2 + j..] && NamesFit(Scan(path[2 + j..]))
    ensures Unscan(Scan(path)) == path
    ensures NamesFit(Scan(path))
  {
    var name := path[1..1 + j];
    var rest := path[2 + j..];
    ScanPlaceholderHead(path, j);
    HeadNameIsName(path);
    EnclosedSplit(path, j);
    UnscanCons(PathTemplate.Placeholder(name), Scan(rest));
    NamesFitCons(PathTemplate.Placeholder(name), Scan(rest));
  }

  lemma ScanUnscanLiteral(path: string)
    requires path != [] && HeadName(path) == 0
    requires Unscan(Scan(path[1..])) == path[1..] && NamesFit(Scan(path[1..]))
    ensures Unscan(Scan(path)) == path
    ensures NamesFit(Scan(path))
  {
    ScanLiteralHead(path);
    UnscanCons(PathTemplate.Literal(path[0]), Scan(path[1..]));
    NamesFitCons(PathTemplate.Literal(path[0]), Scan(path[1..]));
    assert path == [path[0]] + path[1..];
  }

  lemma NamesFitCons(seg: Segment, segs: seq<Segment>)
    requires seg.Placeholder? ==> IsName(seg.name)
    requires NamesFit(segs)
    ensures NamesFit([seg] + segs)
  {
    var all := [seg] + segs;
    forall i | 0 <= i < |all| && all[i].Placeholder?
      ensures IsName(all[i].name)
    {
      if i > 0 {
        assert all[i] == segs[i - 1];
      }
    }
  }

  /** A placeholder at the head of a path: a key that is present is substituted by its
      stringified value (`undefined` included); a missing key leaves `{name}`. */
  lemma ReplacePlaceholder(name: string, rest: string, vars: PathVariables)
    requires IsName(name)
    ensures Has(vars, name) ==>
              Replace(['{'] + name + ['}'] + rest, vars) == Stringify(Get(vars, name).value) + Replace(rest, vars)
    ensures !Has(vars, name) ==>
              Replace(['{'] + name + ['}'] + rest, vars) == ['{'] + name + ['}'] + Replace(rest, vars)
  {
    var path := ['{'] + name + ['}'] + rest;
    EnclosedParts('{', name, '}', rest);
    HeadNameOfPlaceholder(name, rest);
    ScanPlaceholderHead(path, |name|);
    ExpandCons(PathTemplate.Placeholder(name), Scan(rest), vars);
  }

  /** Text without `{` is copied verbatim, and the rest is rewritten on its own. */
  lemma {:induction false} LiteralPrefix(prefix: string, rest: string, vars: PathVariables)
    requires forall i :: 0 <= i < |prefix| ==> prefix[i] != '{'
    ensures Replace(prefix + rest, vars) == prefix + Replace(rest, vars)
    decreases |prefix|
  {
    if prefix != [] {
      var path := prefix + rest;
      assert path[1..] == prefix[1..] + rest;
      assert Scan(path) == [PathTemplate.Literal(prefix[0])] + Scan(path[1..]);
      assert Replace(path, vars) == [prefix[0]] + Replace(path[1..], vars);
      LiteralPrefix(prefix[1..], rest, vars);
      calc {
        Replace(path, vars);
        [prefix[0]] + Replace(prefix[1..] + rest, vars);
        [prefix[0]] + (prefix[1..] + Replace(rest, vars));
        { assert prefix == [prefix[0]] + prefix[1..]; }
        prefix + Replace(rest, vars);
      }
    } else {
      assert prefix + rest == rest;
    }
  }

  lemma {:induction false} ExpandWithoutKeys(segs: seq<Segment>)
    ensures Expand(segs, []) == Unscan(segs)
  {
    if segs != [] {
      ExpandWithoutKeys(segs[1..]);
    }
  }

  /** With `{}` the path comes back unchanged. */
  lemma ReplaceEmpty(path: string)
    ensures Replace(path, []) == path
  {
    ExpandWithoutKeys(Scan(path));
    ScanUnscan(path);
  }

  /** The two revisions part on a key that is present with the value `undefined`: the colon
      form keeps the placeholder, the brace form writes "undefined". */
  lemma UndefinedValueDiffers()
    ensures PathTemplate.Replace(":id", [("id", None)]) == ":id"
    ensures Replace("{id}", [("id", None)]) == "undefined"
  {
    var vars: PathVariables := [("id", None)];
    GetSingle<Option<string>>("id", None, "id");
    assert [':'] + "id" == ":id";
    PathTemplate.LonePlaceholder("id", vars);
    assert ['{'] + "id" + ['}'] + "" == "{id}";
    ReplacePlaceholder("id", "", vars);
    assert Replace("", vars) == "";
  }
}
