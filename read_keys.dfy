/**
 * The keys of the read hooks: when a read is disabled (the key is null) and what the key
 * carries, for `useXFetch` (src/use-xfetch.ts), the per-page key of `useXInfinite`
 * (src/use-xinfinite.ts), the older `useXFetch` of src/hooks.ts and the oldest of
 * src/index.ts, together with the request configuration each fetcher builds.
 */
module ReadKeys {
  import opened JsValues
  import opened Pairs
  import opened PathTemplate
  import opened RequestInits
  import opened Fetcher
  import BraceTemplate

  /** The `params` object of a read: its query parameters and its path variables. */
  datatype ReadParams = ReadParams(queryParams: Option<Record>, pathVariables: Option<PathVariables>)

  /** `urlLike` with the path variables substituted, when there are any. */
  function ResolvedPath(urlLike: string, pathVariables: Option<PathVariables>): string {
    if pathVariables.Some? then Replace(urlLike, pathVariables.value) else urlLike
  }

  /** `parsedPath`: null when `params` or `urlLike` is falsy or the read is disabled. `params` is
      given by its `pathVariables` property, `None` standing for a falsy `params`. */
  function ParsedPath(urlLike: Option<string>, params: Option<Option<PathVariables>>, disabled: bool): Option<string> {
    if params.None? || !Truthy(urlLike) || disabled then None
    else Some(ResolvedPath(urlLike.value, params.value))
  }

  function VariablesOf(params: Option<ReadParams>): Option<Option<PathVariables>> {
    if params.Some? then Some(params.value.pathVariables) else None
  }

  // ---------------------------------------------------------------------------------
  // useXFetch (src/use-xfetch.ts)

  /** The SWR key: null unless `params` and `parsedPath` are truthy. */
  function ReadKey(urlLike: Option<string>, params: Option<ReadParams>, disabled: bool): Option<FetcherParams> {
    var parsed := ParsedPath(urlLike, VariablesOf(params), disabled);
    if params.Some? && Truthy(parsed) then Some(FetcherParams(parsed.value, params.value.queryParams)) else None
  }

  lemma ResolvedPathWithVariables(urlLike: string, pathVariables: Option<PathVariables>)
    ensures ResolvedPath(urlLike, pathVariables) == Replace(urlLike, pathVariables.GetOr([]))
  {
    if pathVariables.None? {
      ReplaceEmpty(urlLike);
    }
  }

  /** A read is disabled exactly when `params` or `urlLike` is falsy, `disabled` is set, or the
      substituted path is empty; otherwise the key is the substituted path (a missing
      `pathVariables` substituting nothing) with the call's query parameters, unchanged. */
  lemma ReadKeySpec(urlLike: Option<string>, params: Option<ReadParams>, disabled: bool)
    ensures ReadKey(urlLike, params, disabled) ==
            if params.None? || !Truthy(urlLike) || disabled then None
            else
              var path := Replace(urlLike.value, params.value.pathVariables.GetOr([]));
              if path == "" then None else Some(FetcherParams(path, params.value.queryParams))
  {
    if params.Some? && Truthy(urlLike) {
      ResolvedPathWithVariables(urlLike.value, params.value.pathVariables);
    }
  }

  /** The key depends on the path variables only through the values their names look up to. */
  lemma ReadKeyContentOnly(urlLike: Option<string>, a: ReadParams, b: ReadParams, disabled: bool)
    requires a.queryParams == b.queryParams
    requires forall name :: Get(a.pathVariables.GetOr([]), name) == Get(b.pathVariables.GetOr([]), name)
    ensures ReadKey(urlLike, Some(a), disabled) == ReadKey(urlLike, Some(b), disabled)
  {
    ReadKeySpec(urlLike, Some(a), disabled);
    ReadKeySpec(urlLike, Some(b), disabled);
    if Truthy(urlLike) {
      ReplaceRespectsContent(urlLike.value, a.pathVariables.GetOr([]), b.pathVariables.GetOr([]));
    }
  }

  /** A path that substitutes to "" disables the read although `urlLike` is truthy. */
  lemma EmptySubstitutionDisablesRead()
    ensures ReadKey(Some(":id"), Some(ReadParams(None, Some([("id", Some(""))]))), false) == None
  {
    ReplacePlaceholder("id", "", [("id", Some(""))]);
    ReplaceEmpty("");
  }

  /** The request of `useXFetch`: the context's shared and read configurations, then the
      hook's, then the key's query parameters. */
  function XFetchRequest(scope: Scope, requestInit: Option<Init>, key: FetcherParams): Request {
    CreateFetcher([scope.requestInit, scope.fetchesRequestInit, OrEmpty(requestInit)], key)
  }

  /** Plain fields come from the hook's configuration, else the context's read configuration,
      else its shared one (an `undefined` never counting); the key's query parameters replace
      the defaults' name by name. */
  lemma XFetchPrecedence(scope: Scope, requestInit: Option<Init>, key: FetcherParams, name: string)
    requires name != "headers" && name != "queryParams"
    ensures var req := XFetchRequest(scope, requestInit, key);
            var defaults := scope.requestInit + scope.fetchesRequestInit + OrEmpty(requestInit);
            && req.path == key.path
            && ValuesOf(req.init.fields, name) ==
               (match LastDefined(defaults, name)
                case Some(v) => [v]
                case None => [])
            && ValuesOf(req.init.queryParams, name) ==
               match (if key.queryParams.Some? then LastValue(RecordParamPairs(key.queryParams.value), name) else None)
               case Some(v) => [v]
               case None => ValuesOf(MergeSpec([scope.requestInit, scope.fetchesRequestInit, OrEmpty(requestInit)]).queryParams, name)
  {
    var inits := [scope.requestInit, scope.fetchesRequestInit, OrEmpty(requestInit)];
    var last: Init := [("queryParams", QueryValue(key.queryParams))];
    assert inits + [last] == [scope.requestInit, scope.fetchesRequestInit, OrEmpty(requestInit), last];
    FlattenFour(scope.requestInit, scope.fetchesRequestInit, OrEmpty(requestInit), last);
    MergedFieldIsLastDefinition(inits + [last], name);
    LastDefinedAppend(scope.requestInit + scope.fetchesRequestInit + OrEmpty(requestInit), last, name);
    FetcherQueryParamsLast(inits, key, name);
  }

  // ---------------------------------------------------------------------------------
  // useXInfinite (src/use-xinfinite.ts)

  /** `params.queryParams` of a paginated read: one object for every page, or a function of
      the page index and the previous page's data. */
  datatype QuerySource<!D> = Static(queryParams: Option<Record>) | PerPage(page: (nat, Option<D>) -> Record)

  datatype InfiniteParams<!D> = InfiniteParams(queryParams: QuerySource<D>, pathVariables: Option<PathVariables>)

  /** The key of one page. */
  datatype PageKey = PageKey(path: string, queryParams: Option<Record>, index: nat, infinite: bool)

  function InfiniteVariablesOf<D>(params: Option<InfiniteParams<D>>): Option<Option<PathVariables>> {
    if params.Some? then Some(params.value.pathVariables) else None
  }

  function PageQuery<D>(source: QuerySource<D>, index: nat, previous: Option<D>): Option<Record> {
    match source
    case Static(q) => q
    case PerPage(f) => Some(f(index, previous))
  }

  /** The page-key function handed to `useSWRInfinite`. */
  function PageKeyFor<D>(parsed: Option<string>, params: Option<InfiniteParams<D>>, index: nat, previous: Option<D>): Option<PageKey> {
    if params.None? || !Truthy(parsed) then None
    else Some(PageKey(parsed.value, PageQuery(params.value.queryParams, index, previous), index, true))
  }

  /** Every page is disabled together: the page key is null for one index exactly when it is
      null for every index, namely when the read is disabled or the substituted path is empty. */
  lemma PageKeyNullIff<D>(urlLike: Option<string>, params: Option<InfiniteParams<D>>, disabled: bool, index: nat, previous: Option<D>)
    ensures var parsed := ParsedPath(urlLike, InfiniteVariablesOf(params), disabled);
            PageKeyFor(parsed, params, index, previous).None? <==>
              params.None? || !Truthy(urlLike) || disabled ||
              Replace(urlLike.value, params.value.pathVariables.GetOr([])) == ""
  {
    if params.Some? && Truthy(urlLike) {
      ResolvedPathWithVariables(urlLike.value, params.value.pathVariables);
    }
  }

  /** A page key names its page and the resolved path, and carries the query parameters the
      function gives for that page and the previous page's data, or the static object. */
  lemma PageKeyContent<D>(parsed: Option<string>, params: InfiniteParams<D>, index: nat, previous: Option<D>)
    requires Truthy(parsed)
    ensures var key := PageKeyFor(parsed, Some(params), index, previous);
            && key.Some?
            && key.value.path == parsed.value
            && key.value.index == index
            && key.value.infinite
            && (params.queryParams.PerPage? ==> key.value.queryParams == Some(params.queryParams.page(index, previous)))
            && (params.queryParams.Static? ==> key.value.queryParams == params.queryParams.queryParams)
  {
  }

  /** With a static query object, two pages' keys differ in nothing but their index. */
  lemma StaticPagesDifferOnlyInIndex<D>(parsed: Option<string>, params: InfiniteParams<D>, i: nat, j: nat, p: Option<D>, q: Option<D>)
    requires params.queryParams.Static?
    ensures var ki := PageKeyFor(parsed, Some(params), i, p);
            var kj := PageKeyFor(parsed, Some(params), j, q);
            ki.None? == kj.None? && (ki.Some? ==> ki.value.(index := j) == kj.value)
  {
  }

  /** The configurations merged for a paginated read; `ignoreContext` swaps both context
      fragments for `{}`. */
  function InfiniteInits(scope: Scope, requestInit: Option<Init>, ignoreContext: bool): seq<Init> {
    [ if ignoreContext then [] else scope.requestInit,
      if ignoreContext then [] else scope.infiniteRequestInit,
      OrEmpty(requestInit) ]
  }

  /** The request of one page: the fetcher sees the key's path and query parameters only. */
  function PageRequest(scope: Scope, requestInit: Option<Init>, ignoreContext: bool, key: PageKey): Request {
    CreateFetcher(InfiniteInits(scope, requestInit, ignoreContext), FetcherParams(key.path, key.queryParams))
  }

  /** With `ignoreContext`, a page's request is the one the hook's own configuration alone
      gives, whatever the context provides. */
  lemma IgnoreContextDropsScope(scope: Scope, requestInit: Option<Init>, key: PageKey)
    ensures PageRequest(scope, requestInit, true, key) ==
            CreateFetcher([OrEmpty(requestInit)], FetcherParams(key.path, key.queryParams))
  {
    var o := OrEmpty(requestInit);
    var last: Init := [("queryParams", QueryValue(key.queryParams))];
    var inits := InfiniteInits(scope, requestInit, true);
    assert inits + [last] == [[], [], o, last];
    assert [o] + [last] == [o, last];
    var none: Init := [];
    FlattenFour(none, none, o, last);
    assert Flatten([o, last]) == o + last by {
      assert [o, last][..1] == [o];
      assert [o][..0] == [];
      assert Flatten([o]) == none + o == o;
    }
    assert none + none + o + last == o + last;
    MergeSpecFlat(inits + [last]);
    MergeSpecFlat([o] + [last]);
  }

  // ---------------------------------------------------------------------------------
  // useXFetch of src/hooks.ts

  function EntryTexts(vars: PathVariables): seq<string> {
    if vars == [] then [] else [vars[0].0 + ":" + Stringify(vars[0].1)] + EntryTexts(vars[1..])
  }

  lemma EntryTextsOne(name: string, value: Option<string>)
    ensures EntryTexts([(name, value)]) == [name + ":" + Stringify(value)]
  {
    assert [(name, value)][1..] == [];
  }

  lemma EntryTextsPair(n0: string, v0: Option<string>, n1: string, v1: Option<string>)
    ensures Join(EntryTexts([(n0, v0), (n1, v1)])) == n0 + ":" + Stringify(v0) + "," + n1 + ":" + Stringify(v1)
  {
    assert [(n0, v0), (n1, v1)][1..] == [(n1, v1)];
    EntryTextsOne(n1, v1);
    var parts := [n0 + ":" + Stringify(v0), n1 + ":" + Stringify(v1)];
    assert parts[1..] == [parts[1]];
  }

  /** `parts.join(",")`. */
  function Join(parts: seq<string>): string {
    if parts == [] then ""
    else if |parts| == 1 then parts[0]
    else parts[0] + "," + Join(parts[1..])
  }

  /** `pathVarsHash`: "" for a falsy `params`, else the `name:value` entries of the path
      variables joined by commas, in entry order. */
  function PathVarsHash(params: Option<ReadParams>): string {
    if params.None? then "" else Join(EntryTexts(params.value.pathVariables.GetOr([])))
  }

  /** The key: the substituted path and the whole `params` object. */
  datatype HooksKey = HooksKey(path: string, params: ReadParams)

  function HooksReadKey(urlLike: Option<string>, params: Option<ReadParams>, disabled: bool): Option<HooksKey> {
    var parsed := ParsedPath(urlLike, VariablesOf(params), disabled);
    if params.Some? && Truthy(parsed) then Some(HooksKey(parsed.value, params.value)) else None
  }

  /** The older key is null exactly when the current one is, and names the same path. */
  lemma HooksKeyAgreesWithReadKey(urlLike: Option<string>, params: Option<ReadParams>, disabled: bool)
    ensures var older := HooksReadKey(urlLike, params, disabled);
            var current := ReadKey(urlLike, params, disabled);
            older.None? == current.None? &&
            (older.Some? ==> older.value.path == current.value.path && older.value.params.queryParams == current.value.queryParams)
  {
  }

  /** The hash follows entry order: two variables with distinct names free of `:` hash
      differently in the two entry orders, although they substitute identically in every path.
      (`Object.entries` lists array-index names first, ascending, so for two such names only
      one of the orders arises from a JS object.) */
  lemma PathVarsHashOrderSensitive(path: string, n0: string, v0: Option<string>, n1: string, v1: Option<string>)
    requires n0 != n1
    requires forall i :: 0 <= i < |n0| ==> n0[i] != ':'
    requires forall i :: 0 <= i < |n1| ==> n1[i] != ':'
    ensures var a := ReadParams(None, Some([(n0, v0), (n1, v1)]));
            var b := ReadParams(None, Some([(n1, v1), (n0, v0)]));
            && PathVarsHash(Some(a)) != PathVarsHash(Some(b))
            && Replace(path, a.pathVariables.value) == Replace(path, b.pathVariables.value)
  {
    var a: PathVariables := [(n0, v0), (n1, v1)];
    var b: PathVariables := [(n1, v1), (n0, v0)];
    PairHashesDiffer(n0, v0, n1, v1);
    forall name ensures Get(a, name) == Get(b, name) {
      ValuesOfPair((n0, v0), (n1, v1), name);
      ValuesOfPair((n1, v1), (n0, v0), name);
    }
    ReplaceRespectsContent(path, a, b);
  }

  lemma PairHashesDiffer(n0: string, v0: Option<string>, n1: string, v1: Option<string>)
    requires n0 != n1
    requires forall i :: 0 <= i < |n0| ==> n0[i] != ':'
    requires forall i :: 0 <= i < |n1| ==> n1[i] != ':'
    ensures Join(EntryTexts([(n0, v0), (n1, v1)])) != Join(EntryTexts([(n1, v1), (n0, v0)]))
  {
    EntryTextsPair(n0, v0, n1, v1);
    EntryTextsPair(n1, v1, n0, v0);
    var s0, s1 := Stringify(v0), Stringify(v1);
    NameFirst(n0, s0, n1, s1);
    NameFirst(n1, s1, n0, s0);
    DistinctNamesDistinctTexts(n0, n1, s0 + "," + n1 + ":" + s1, s1 + "," + n0 + ":" + s0);
  }

  /** The text of two entries, cut after the first name's `:`. */
  lemma NameFirst(n: string, s: string, m: string, r: string)
    ensures n + ":" + s + "," + m + ":" + r == n + ":" + (s + "," + m + ":" + r)
  {
  }

  /** Two `name:` prefixes with distinct names free of `:` never spell the same text. */
  lemma DistinctNamesDistinctTexts(x: string, y: string, t: string, u: string)
    requires x != y
    requires forall i :: 0 <= i < |x| ==> x[i] != ':'
    requires forall i :: 0 <= i < |y| ==> y[i] != ':'
    ensures x + ":" + t != y + ":" + u
  {
    var a := x + ":" + t;
    var b := y + ":" + u;
    if |x| < |y| {
      assert a[|x|] == ':' && b[|x|] == y[|x|];
    } else if |y| < |x| {
      assert b[|y|] == ':' && a[|y|] == x[|y|];
    } else {
      var i :| 0 <= i < |x| && x[i] != y[i];
      assert a[i] == x[i] && b[i] == y[i];
    }
  }

  /** The hash does not tell a falsy `params` from one without path variables, although the
      first disables the read and the second reads `urlLike`. */
  lemma PathVarsHashIgnoresPresence(urlLike: string)
    requires urlLike != ""
    ensures PathVarsHash(None) == PathVarsHash(Some(ReadParams(None, None))) == ""
    ensures ParsedPath(Some(urlLike), VariablesOf(None), false) == None
    ensures ParsedPath(Some(urlLike), VariablesOf(Some(ReadParams(None, None))), false) == Some(urlLike)
  {
  }

  /** The hash does not tell `undefined` from "undefined", which substitute differently. */
  lemma PathVarsHashUndefinedCollision()
    ensures var u := ReadParams(None, Some([("a", None)]));
            var s := ReadParams(None, Some([("a", Some("undefined"))]));
            && PathVarsHash(Some(u)) == PathVarsHash(Some(s)) == "a:undefined"
            && Replace(":a", u.pathVariables.value) == ":a"
            && Replace(":a", s.pathVariables.value) == "undefined"
  {
    EntryTextsOne("a", None);
    EntryTextsOne("a", Some("undefined"));
    assert ":a" == [':'] + "a" + "";
    ReplacePlaceholder("a", "", [("a", None)]);
    ReplacePlaceholder("a", "", [("a", Some("undefined"))]);
    ReplaceEmpty("");
  }

  /** The hash does not tell one variable whose value holds ",b:" from two variables, whatever
      the values around the separator; the two substitute differently. */
  lemma PathVarsHashSeparatorCollision(x: string, y: string)
    ensures var one := ReadParams(None, Some([("a", Some(x + ",b:" + y))]));
            var two := ReadParams(None, Some([("a", Some(x)), ("b", Some(y))]));
            && PathVarsHash(Some(one)) == PathVarsHash(Some(two)) == "a:" + x + ",b:" + y
            && Replace(":a/:b", one.pathVariables.value) == x + ",b:" + y + "/:b"
            && Replace(":a/:b", two.pathVariables.value) == x + "/" + y
            && Replace(":a/:b", one.pathVariables.value) != Replace(":a/:b", two.pathVariables.value)
  {
    SeparatorHashes(x, y);
    SeparatorPathOne(x + ",b:" + y);
    SeparatorPathTwo(x, y);
  }

  lemma SeparatorHashes(x: string, y: string)
    ensures PathVarsHash(Some(ReadParams(None, Some([("a", Some(x + ",b:" + y))])))) == "a:" + x + ",b:" + y
    ensures PathVarsHash(Some(ReadParams(None, Some([("a", Some(x)), ("b", Some(y))])))) == "a:" + x + ",b:" + y
  {
    EntryTextsOne("a", Some(x + ",b:" + y));
    EntryTextsPair("a", Some(x), "b", Some(y));
    Regroup4("a", ":", x, ",b:", y);
    assert "a" + ":" + x + "," + "b" + ":" + y == "a" + ":" + x + ",b:" + y by {
      Regroup4("a" + ":" + x, ",", "b", ":", y);
      assert "," + "b" + ":" == ",b:";
    }
    assert "a" + ":" == "a:";
  }

  /** Concatenation regrouped, over plain strings. */
  lemma Regroup4(p: string, q: string, r: string, s: string, t: string)
    ensures p + q + (r + s + t) == p + q + r + s + t
  {
  }

  lemma SeparatorPathOne(v: string)
    ensures Replace(":a/:b", [("a", Some(v))]) == v + "/:b"
  {
    var one: PathVariables := [("a", Some(v))];
    GetSingle("a", Some(v), "a");
    GetSingle("a", Some(v), "b");
    assert ":b" == [':'] + "b";
    LonePlaceholder("b", one);
    TwoPlaceholders(one, v, ":b");
  }

  lemma SeparatorPathTwo(x: string, y: string)
    ensures Replace(":a/:b", [("a", Some(x)), ("b", Some(y))]) == x + "/" + y
  {
    var two: PathVariables := [("a", Some(x)), ("b", Some(y))];
    ValuesOfPair(("a", Some(x)), ("b", Some(y)), "a");
    ValuesOfPair(("a", Some(x)), ("b", Some(y)), "b");
    assert ":b" == [':'] + "b";
    LonePlaceholder("b", two);
    TwoPlaceholders(two, x, y);
  }

  /** `:a/:b` with `a` defined as `x` and `b` resolving to `y`. */
  lemma TwoPlaceholders(vars: PathVariables, x: string, y: string)
    requires Get(vars, "a") == Some(Some(x))
    requires Replace(":b", vars) == y
    ensures Replace(":a/:b", vars) == x + "/" + y
  {
    assert ":a/:b" == [':'] + "a" + "/:b";
    ReplacePlaceholder("a", "/:b", vars);
    assert "/:b" == "/" + ":b";
    ReplaceAppend("/", ":b", vars);
    SlashPath(vars);
    Regroup(Replace(":a/:b", vars), Replace("/:b", vars), x + "/", x, "/", y);
  }

  lemma SlashPath(vars: PathVariables)
    ensures Replace("/", vars) == "/"
  {
    var slash := "/";
    assert slash[1..] == [];
    assert Scan(slash) == [Literal('/')] + Scan([]);
    assert Expand([Literal('/')], vars) == "/" + Expand([], vars);
  }

  /** The `queryParams` object of one configuration, as spread: a plain object's properties,
      nothing for `undefined` or any other value. */
  function QueryOf(init: Init): Record {
    ObjectEntries(Get(init, "queryParams").GetOr(Undefined))
  }

  /** The four query sources of the older fetcher, lowest precedence first. */
  function HooksQuerySources(scope: Scope, requestInit: Option<Init>, params: ReadParams): seq<Record> {
    [QueryOf(scope.requestInit), QueryOf(scope.fetchesRequestInit), QueryOf(OrEmpty(requestInit)), params.queryParams.GetOr([])]
  }

  /** The configuration the older fetcher passes on: a spread of the three configurations with
      `queryParams` replaced by the spread of the four query sources. */
  function HooksFetchInit(scope: Scope, requestInit: Option<Init>, params: ReadParams): Init {
    Set(Spread([scope.requestInit, scope.fetchesRequestInit, OrEmpty(requestInit)]),
        "queryParams", Object(Spread(HooksQuerySources(scope, requestInit, params))))
  }

  /** A field other than `queryParams` is taken whole (headers included) from the last of the
      three configurations holding it, even when that value is `undefined`; a query parameter
      comes from the key's `params` when it names it, else from the last default holding it. */
  lemma HooksFetchPrecedence(scope: Scope, requestInit: Option<Init>, params: ReadParams, name: string)
    ensures var init := HooksFetchInit(scope, requestInit, params);
            name != "queryParams" ==>
              Get(init, name) == LastWith([scope.requestInit, scope.fetchesRequestInit, OrEmpty(requestInit)], name)
    ensures var sources := HooksQuerySources(scope, requestInit, params);
            var call := params.queryParams.GetOr([]);
            && Get(HooksFetchInit(scope, requestInit, params), "queryParams") == Some(Object(Spread(sources)))
            && Get(Spread(sources), name) ==
               if LastValue(call, name).Some? then LastValue(call, name) else LastWith(sources[..3], name)
  {
    var configs := [scope.requestInit, scope.fetchesRequestInit, OrEmpty(requestInit)];
    var sources := HooksQuerySources(scope, requestInit, params);
    SetValues(Spread(configs), "queryParams", Object(Spread(sources)), name);
    SetValues(Spread(configs), "queryParams", Object(Spread(sources)), "queryParams");
    SpreadLastWins(configs, name);
    SpreadLastWins(sources, name);
  }

  // ---------------------------------------------------------------------------------
  // useXFetch of src/index.ts (brace placeholders)

  /** `p`: null when `params` is falsy, else the substituted path, or `path` without variables. */
  function LegacyParsedPath(path: string, params: Option<ReadParams>): Option<string> {
    if params.None? then None
    else if params.value.pathVariables.Some? then Some(BraceTemplate.Replace(path, params.value.pathVariables.value))
    else Some(path)
  }

  /** The key `{...params, path}`; its `path` is what the fetcher requests. */
  datatype LegacyKey = LegacyKey(params: ReadParams, path: string)

  /** The key as written: it carries the template `path`, not the substituted `p`. */
  function LegacyReadKeyAsWritten(path: string, params: Option<ReadParams>): Option<LegacyKey> {
    var p := LegacyParsedPath(path, params);
    if params.Some? && Truthy(p) then Some(LegacyKey(params.value, path)) else None
  }

  /** The key as evidently intended: it carries the substituted path. */
  function LegacyReadKey(path: string, params: Option<ReadParams>): Option<LegacyKey> {
    var p := LegacyParsedPath(path, params);
    if params.Some? && Truthy(p) then Some(LegacyKey(params.value, p.value)) else None
  }

  /** As written, the read requests the template itself: its placeholder is never filled, so
      for `prefix + "{id}"` with `id` set to `value` the path requested is not `p`. */
  lemma LegacyReadIgnoresVariables(prefix: string, value: string)
    requires forall i :: 0 <= i < |prefix| ==> prefix[i] != '{'
    requires value != []
    ensures var params := Some(ReadParams(None, Some([("id", Some(value))])));
            && LegacyParsedPath(prefix + "{id}", params) == Some(prefix + value)
            && LegacyReadKeyAsWritten(prefix + "{id}", params).value.path == prefix + "{id}"
  {
    ProjectPath(prefix, value);
  }

  lemma ProjectPath(prefix: string, value: string)
    requires forall i :: 0 <= i < |prefix| ==> prefix[i] != '{'
    ensures BraceTemplate.Replace(prefix + "{id}", [("id", Some(value))]) == prefix + value
  {
    var vars: PathVariables := [("id", Some(value))];
    assert BraceTemplate.Replace("{id}", vars) == value by {
      assert "{id}" == ['{'] + "id" + ['}'] + "";
      GetSingle<Option<string>>("id", Some(value), "id");
      BraceTemplate.ReplacePlaceholder("id", "", vars);
      BraceTemplate.ReplaceEmpty("");
      assert BraceTemplate.Replace("", vars) == "";
    }
    BraceTemplate.LiteralPrefix(prefix, "{id}", vars);
  }

  /** Both forms of the key are null together; the corrected one requests `p`, which is the
      template with its `{name}` placeholders substituted. */
  lemma LegacyReadKeyRequestsParsedPath(path: string, params: Option<ReadParams>)
    ensures LegacyReadKey(path, params).None? == LegacyReadKeyAsWritten(path, params).None?
    ensures LegacyReadKey(path, params).Some? ==>
              LegacyReadKey(path, params).value.path == BraceTemplate.Replace(path, params.value.pathVariables.GetOr([])) &&
              LegacyReadKey(path, params).value.params == LegacyReadKeyAsWritten(path, params).value.params
  {
    if params.Some? && params.value.pathVariables.None? {
      BraceTemplate.ReplaceEmpty(path);
    }
  }

  /** The request of the oldest fetcher: `init` holds every property of the spread of the hook's
      configuration but `queryParams`, whose value is `query` (an object whose values can be any
      configuration value, so it is kept apart from `init`). */
  datatype LegacyRequest = LegacyRequest(path: string, init: Init, query: Init)

  /** The hook's configuration, spread, without its `queryParams` property. */
  function LegacyFields(requestInit: Option<Init>): Init {
    RemoveAll(Spread([OrEmpty(requestInit)]), "queryParams")
  }

  /** As written: `queryParams: {...options?.requestInit, ...params.searchParams}`. The key has no
      `searchParams`, so the call's query parameters are dropped and the hook's configuration
      fields are sent as query parameters instead. */
  function LegacyFetchAsWritten(requestInit: Option<Init>, key: LegacyKey): LegacyRequest {
    LegacyRequest(key.path, LegacyFields(requestInit), Spread([OrEmpty(requestInit)]))
  }

  /** Every property of the hook's configuration but `queryParams` is passed on as spread. */
  lemma LegacyFieldsKeepAllButQuery(requestInit: Option<Init>, name: string)
    ensures Get(LegacyFields(requestInit), name) ==
              if name == "queryParams" then None else Get(Spread([OrEmpty(requestInit)]), name)
  {
    RemoveAllValues(Spread([OrEmpty(requestInit)]), "queryParams", name);
  }

  /** A record of query values, as configuration values. */
  function AsValues(r: Record): Init {
    if r == [] then []
    else [(r[0].0, if r[0].1.Some? then Opaque(r[0].1.value) else Undefined)] + AsValues(r[1..])
  }

  /** As evidently intended: the hook's query parameters, then the key's. */
  function LegacyFetch(requestInit: Option<Init>, key: LegacyKey): LegacyRequest {
    LegacyRequest(key.path, LegacyFields(requestInit),
                  Spread([AsValues(QueryOf(OrEmpty(requestInit))), AsValues(key.params.queryParams.GetOr([]))]))
  }

  /** As written, a call's query parameter is never sent and a configuration field is. */
  lemma LegacyQueryDropsCallParams()
    ensures var key := LegacyKey(ReadParams(Some([("q", Some("x"))]), None), "/items");
            LegacyFetchAsWritten(Some([("method", Opaque("GET"))]), key).query == [("method", Opaque("GET"))]
  {
    var o: Init := [("method", Opaque("GET"))];
    assert [o][..0] == [];
    assert SetAll([], o) == o by {
      assert o[..0] == [];
    }
  }

  /** Corrected, each query parameter comes from the key's `params` when it names it, else from
      the hook's `requestInit.queryParams`. */
  lemma LegacyFetchSendsCallParams(requestInit: Option<Init>, key: LegacyKey, name: string)
    ensures var call := AsValues(key.params.queryParams.GetOr([]));
            var hook := AsValues(QueryOf(OrEmpty(requestInit)));
            Get(LegacyFetch(requestInit, key).query, name) ==
              if LastValue(call, name).Some? then LastValue(call, name) else LastValue(hook, name)
  {
    var call := AsValues(key.params.queryParams.GetOr([]));
    var hook := AsValues(QueryOf(OrEmpty(requestInit)));
    SpreadLastWins([hook, call], name);
    assert [hook, call][..1] == [hook];
    assert [hook][..0] == [];
    assert LastWith([hook], name) == LastValue(hook, name);
    assert LastWith([hook, call], name) == if LastValue(call, name).Some? then LastValue(call, name) else LastWith([hook], name);
  }
}
