/**
 * fetcher.ts: `mergeRequestInits` folds request configurations left to right into one,
 * gathering `headers` in a `Headers` object and `queryParams` in a `URLSearchParams` object;
 * `createFetcher` returns a closure that merges the call's query parameters last.
 */
module Fetcher {
  import opened JsValues
  import opened Pairs
  import opened RequestInits

  /** The object `mergeRequestInits` returns: the other fields, plus the two accumulators. */
  datatype Merged = Merged(fields: Init, headers: Entries<string>, queryParams: Entries<string>)

  /** Byte-lowercasing of a header name (section 5.1 of the WHATWG Fetch Standard). */
  function LowerChar(c: char): char {
    if 'A' <= c <= 'Z' then (c as int - 'A' as int + 'a' as int) as char else c
  }

  function LowerName(s: string): (r: string)
    ensures |r| == |s|
    ensures forall i :: 0 <= i < |s| ==> r[i] == LowerChar(s[i])
  {
    if s == [] then [] else [LowerChar(s[0])] + LowerName(s[1..])
  }

  predicate IsLowerName(s: string) {
    forall i :: 0 <= i < |s| ==> !('A' <= s[i] <= 'Z')
  }

  /** The pairs a `forEach` over a `Headers` object passes to `set`, names lowercased as `set` stores them. */
  function HeaderPairs(list: Entries<string>): Entries<string>
    decreases |list|
  {
    if list == [] then []
    else HeaderPairs(list[..|list| - 1]) + [(LowerName(list[|list| - 1].0), list[|list| - 1].1)]
  }

  /** The pairs a plain headers object passes to `append`: names lowercased, values stringified. */
  function RecordHeaderPairs(r: Record): Entries<string>
    decreases |r|
  {
    if r == [] then []
    else RecordHeaderPairs(r[..|r| - 1]) + [(LowerName(r[|r| - 1].0), Stringify(r[|r| - 1].1))]
  }

  /** The pairs a plain query object passes to `set`: values stringified (`undefined` too). */
  function RecordParamPairs(r: Record): Entries<string>
    decreases |r|
  {
    if r == [] then []
    else RecordParamPairs(r[..|r| - 1]) + [(r[|r| - 1].0, Stringify(r[|r| - 1].1))]
  }

  /** One property of one source object. */
  function MergeEntry(acc: Merged, name: string, value: Value): Merged {
    if value.Undefined? then acc
    else if name == "headers" then
      if value.HeadersInstance? then acc.(headers := SetAll(acc.headers, HeaderPairs(value.list)))
      else if value.Truthy() then acc.(headers := acc.headers + RecordHeaderPairs(ObjectEntries(value)))
      else acc
    else if name == "queryParams" then
      if value.SearchParamsInstance? then acc.(queryParams := SetAll(acc.queryParams, value.list))
      else if value.Truthy() then acc.(queryParams := SetAll(acc.queryParams, RecordParamPairs(ObjectEntries(value))))
      else acc
    else acc.(fields := Set(acc.fields, name, value))
  }

  /** The properties of one source object, in order. */
  function MergeEntries(acc: Merged, obj: Init): Merged
    decreases |obj|
  {
    if obj == [] then acc
    else
      var last := obj[|obj| - 1];
      MergeEntry(MergeEntries(acc, obj[..|obj| - 1]), last.0, last.1)
  }

  /** The merge of all source objects, left to right. */
  function MergeSpec(objs: seq<Init>): Merged
    decreases |objs|
  {
    if objs == [] then Merged([], [], [])
    else MergeEntries(MergeSpec(objs[..|objs| - 1]), objs[|objs| - 1])
  }

  method MergeRequestInits(objs: seq<Init>) returns (merged: Merged)
    ensures merged == MergeSpec(objs)
  {
    merged := Merged([], [], []);
    for i := 0 to |objs|
      invariant merged == MergeSpec(objs[..i])
    {
      var obj := objs[i];
      assert objs[..i + 1][..i] == objs[..i];
      for j := 0 to |obj|
        invariant merged == MergeEntries(MergeSpec(objs[..i]), obj[..j])
      {
        assert obj[..j + 1][..j] == obj[..j];
        merged := MergeProperty(merged, obj[j].0, obj[j].1);
      }
      assert obj[..|obj|] == obj;
    }
    assert objs[..|objs|] == objs;
  }

  /** The body of the inner `forEach`: one property of one source object. */
  method MergeProperty(acc: Merged, name: string, value: Value) returns (r: Merged)
    ensures r == MergeEntry(acc, name, value)
  {
    r := acc;
    if value.Undefined? {
      // skipped: an undefined field never erases an earlier one
    } else if name == "headers" {
      if value.HeadersInstance? {
        var headers := SetHeaders(acc.headers, value.list);
        r := acc.(headers := headers);
      } else if value.Truthy() {
        var headers := AppendHeaders(acc.headers, ObjectEntries(value));
        r := acc.(headers := headers);
      }
    } else if name == "queryParams" {
      if value.SearchParamsInstance? {
        var searchParams := SetParams(acc.queryParams, value.list);
        r := acc.(queryParams := searchParams);
      } else if value.Truthy() {
        var searchParams := SetParams(acc.queryParams, RecordParamPairs(ObjectEntries(value)));
        r := acc.(queryParams := searchParams);
      }
    } else {
      r := acc.(fields := Set(acc.fields, name, value));
    }
  }

  /** `value.forEach((v, n) => headers.set(n, v))` over a `Headers` object. */
  method SetHeaders(headers: Entries<string>, list: Entries<string>) returns (r: Entries<string>)
    ensures r == SetAll(headers, HeaderPairs(list))
  {
    r := headers;
    for k := 0 to |list|
      invariant r == SetAll(headers, HeaderPairs(list[..k]))
    {
      assert list[..k + 1][..k] == list[..k];
      r := Set(r, LowerName(list[k].0), list[k].1);
    }
    assert list[..|list|] == list;
  }

  /** `Object.entries(value).forEach(([n, v]) => headers.append(n, v))` over a plain object. */
  method AppendHeaders(headers: Entries<string>, entries: Record) returns (r: Entries<string>)
    ensures r == headers + RecordHeaderPairs(entries)
  {
    r := headers;
    for k := 0 to |entries|
      invariant r == headers + RecordHeaderPairs(entries[..k])
    {
      assert entries[..k + 1][..k] == entries[..k];
      r := r + [(LowerName(entries[k].0), Stringify(entries[k].1))];
    }
    assert entries[..|entries|] == entries;
  }

  /** A `forEach` that calls `searchParams.set` for every pair, in order. */
  method SetParams(searchParams: Entries<string>, pairs: Entries<string>) returns (r: Entries<string>)
    ensures r == SetAll(searchParams, pairs)
  {
    r := searchParams;
    for k := 0 to |pairs|
      invariant r == SetAll(searchParams, pairs[..k])
    {
      assert pairs[..k + 1][..k] == pairs[..k];
      r := Set(r, pairs[k].0, pairs[k].1);
    }
    assert pairs[..|pairs|] == pairs;
  }

  // ---------------------------------------------------------------------------------
  // createFetcher

  /** What `useSWR` hands to the fetcher: the resolved path and the call's query parameters. */
  datatype FetcherParams = FetcherParams(path: string, queryParams: Option<Record>)

  /** A call of `xfetch`: the path and the merged configuration. */
  datatype Request = Request(path: string, init: Merged)

  /** The `{ queryParams }` object appended by the closure (an absent property reads `undefined`). */
  function QueryValue(queryParams: Option<Record>): Value {
    match queryParams
    case Some(r) => Object(r)
    case None => Undefined
  }

  /** The request the closure returned by `createFetcher(...inits)` makes for `params`. */
  function CreateFetcher(inits: seq<Init>, params: FetcherParams): Request {
    Request(params.path, MergeSpec(inits + [[("queryParams", QueryValue(params.queryParams))]]))
  }

  // ---------------------------------------------------------------------------------
  // Properties of the merge

  /** All properties of all source objects, in the order the two `forEach` loops visit them. */
  function Flatten(objs: seq<Init>): Init
    decreases |objs|
  {
    if objs == [] then [] else Flatten(objs[..|objs| - 1]) + objs[|objs| - 1]
  }

  /** The value of the last property named `name` that is not `undefined`. */
  function LastDefined(es: Init, name: string): (r: Option<Value>)
    ensures r.Some? ==> !r.value.Undefined?
    decreases |es|
  {
    if es == [] then None
    else
      var last := es[|es| - 1];
      if last.0 == name && !last.1.Undefined? then Some(last.1) else LastDefined(es[..|es| - 1], name)
  }

  lemma {:induction false} MergeEntriesAppend(acc: Merged, a: Init, b: Init)
    ensures MergeEntries(acc, a + b) == MergeEntries(MergeEntries(acc, a), b)
    decreases |b|
  {
    if b == [] {
      assert a + b == a;
    } else {
      var front := b[..|b| - 1];
      assert (a + b)[..|a + b| - 1] == a + front;
      assert (a + b)[|a + b| - 1] == b[|b| - 1];
      MergeEntriesAppend(acc, a, front);
    }
  }

  /** The merge is one fold over all properties of all sources. */
  lemma {:induction false} MergeSpecFlat(objs: seq<Init>)
    ensures MergeSpec(objs) == MergeEntries(Merged([], [], []), Flatten(objs))
    decreases |objs|
  {
    if objs != [] {
      var front := objs[..|objs| - 1];
      MergeSpecFlat(front);
      MergeEntriesAppend(Merged([], [], []), Flatten(front), objs[|objs| - 1]);
    }
  }

  lemma MergeAppendSource(objs: seq<Init>, obj: Init)
    ensures MergeSpec(objs + [obj]) == MergeEntries(MergeSpec(objs), obj)
  {
    assert (objs + [obj])[..|objs|] == objs;
  }

  lemma {:induction false} FieldsAfterEntries(acc: Merged, es: Init, name: string)
    ensures ValuesOf(MergeEntries(acc, es).fields, name) ==
            if name == "headers" || name == "queryParams" then ValuesOf(acc.fields, name)
            else match LastDefined(es, name)
              case Some(v) => [v]
              case None => ValuesOf(acc.fields, name)
    decreases |es|
  {
    if es != [] {
      var front := es[..|es| - 1];
      var last := es[|es| - 1];
      FieldsAfterEntries(acc, front, name);
      var mid := MergeEntries(acc, front);
      if !last.1.Undefined? && last.0 != "headers" && last.0 != "queryParams" {
        SetValues(mid.fields, last.0, last.1, name);
      }
    }
  }

  /** A field other than `headers` and `queryParams` holds the value of the last source that
      defines it (an `undefined` never erases it); `headers` and `queryParams` are never plain fields. */
  lemma MergedFieldIsLastDefinition(objs: seq<Init>, name: string)
    ensures ValuesOf(MergeSpec(objs).fields, name) ==
            if name == "headers" || name == "queryParams" then []
            else match LastDefined(Flatten(objs), name)
              case Some(v) => [v]
              case None => []
  {
    MergeSpecFlat(objs);
    FieldsAfterEntries(Merged([], [], []), Flatten(objs), name);
  }

  /** With no source at all, the result still carries empty `headers` and `queryParams`. */
  lemma MergeNothing()
    ensures MergeSpec([]) == Merged([], [], [])
  {
  }

  /** `undefined` in any field, and a falsy `headers` or `queryParams`, contribute nothing. */
  lemma NothingFromUndefinedOrFalsy(objs: seq<Init>, name: string, value: Value)
    requires value.Undefined? || (!value.Truthy() && (name == "headers" || name == "queryParams"))
    ensures MergeSpec(objs + [[(name, value)]]) == MergeSpec(objs)
  {
    MergeAppendSource(objs, [(name, value)]);
  }

  /** A `Headers` object overwrites each of its names (`set`) and leaves the rest alone. */
  lemma HeadersInstanceOverwrites(objs: seq<Init>, list: Entries<string>, name: string)
    ensures var before := MergeSpec(objs);
            var after := MergeSpec(objs + [[("headers", HeadersInstance(list))]]);
            && after.fields == before.fields
            && after.queryParams == before.queryParams
            && ValuesOf(after.headers, name) ==
               match LastValue(HeaderPairs(list), name)
               case Some(v) => [v]
               case None => ValuesOf(before.headers, name)
  {
    MergeAppendSource(objs, [("headers", HeadersInstance(list))]);
    SetAllValues(MergeSpec(objs).headers, HeaderPairs(list), name);
  }

  /** A plain headers object appends its values after the values already present (`append`). */
  lemma PlainHeadersAppend(objs: seq<Init>, r: Record, name: string)
    ensures var before := MergeSpec(objs);
            var after := MergeSpec(objs + [[("headers", Object(r))]]);
            && after.fields == before.fields
            && after.queryParams == before.queryParams
            && ValuesOf(after.headers, name) == ValuesOf(before.headers, name) + ValuesOf(RecordHeaderPairs(r), name)
  {
    MergeAppendSource(objs, [("headers", Object(r))]);
    ValuesOfAppend(MergeSpec(objs).headers, RecordHeaderPairs(r), name);
  }

  /** Query parameters, from a `URLSearchParams` or a plain object, replace every earlier
      value of each of their names by a single value (`set`). */
  lemma QueryParamsReplace(objs: seq<Init>, value: Value, name: string)
    requires value.SearchParamsInstance? || value.Object?
    ensures var before := MergeSpec(objs);
            var after := MergeSpec(objs + [[("queryParams", value)]]);
            var pairs := if value.SearchParamsInstance? then value.list else RecordParamPairs(value.entries);
            && after.fields == before.fields
            && after.headers == before.headers
            && ValuesOf(after.queryParams, name) ==
               match LastValue(pairs, name)
               case Some(v) => [v]
               case None => ValuesOf(before.queryParams, name)
  {
    MergeAppendSource(objs, [("queryParams", value)]);
    var pairs := if value.SearchParamsInstance? then value.list else RecordParamPairs(value.entries);
    SetAllValues(MergeSpec(objs).queryParams, pairs, name);
  }

  lemma LowerNameIsLower(s: string)
    ensures IsLowerName(LowerName(s))
  {
  }

  lemma {:induction false} HeaderPairsLower(list: Entries<string>, name: string)
    requires !IsLowerName(name)
    ensures ValuesOf(HeaderPairs(list), name) == []
    decreases |list|
  {
    if list != [] {
      var last := list[|list| - 1];
      HeaderPairsLower(list[..|list| - 1], name);
      LowerNameIsLower(last.0);
      ValuesOfAppend(HeaderPairs(list[..|list| - 1]), [(LowerName(last.0), last.1)], name);
    }
  }

  lemma {:induction false} RecordHeaderPairsLower(r: Record, name: string)
    requires !IsLowerName(name)
    ensures ValuesOf(RecordHeaderPairs(r), name) == []
    decreases |r|
  {
    if r != [] {
      var last := r[|r| - 1];
      RecordHeaderPairsLower(r[..|r| - 1], name);
      LowerNameIsLower(last.0);
      ValuesOfAppend(RecordHeaderPairs(r[..|r| - 1]), [(LowerName(last.0), Stringify(last.1))], name);
    }
  }

  lemma {:induction false} HeadersLowerAfterEntries(acc: Merged, es: Init, name: string)
    requires !IsLowerName(name)
    requires ValuesOf(acc.headers, name) == []
    ensures ValuesOf(MergeEntries(acc, es).headers, name) == []
    decreases |es|
  {
    if es != [] {
      var front := es[..|es| - 1];
      var last := es[|es| - 1];
      HeadersLowerAfterEntries(acc, front, name);
      var mid := MergeEntries(acc, front);
      if !last.1.Undefined? && last.0 == "headers" {
        if last.1.HeadersInstance? {
          HeaderPairsLower(last.1.list, name);
          LastValueOf(HeaderPairs(last.1.list), name);
          SetAllValues(mid.headers, HeaderPairs(last.1.list), name);
        } else if last.1.Truthy() {
          RecordHeaderPairsLower(ObjectEntries(last.1), name);
          ValuesOfAppend(mid.headers, RecordHeaderPairs(ObjectEntries(last.1)), name);
        }
      }
    }
  }

  /** Header names are case-insensitive: every merged header is stored under its lowercase name. */
  lemma HeaderNamesLowercase(objs: seq<Init>, name: string)
    requires !IsLowerName(name)
    ensures ValuesOf(MergeSpec(objs).headers, name) == []
  {
    MergeSpecFlat(objs);
    HeadersLowerAfterEntries(Merged([], [], []), Flatten(objs), name);
  }

  /** The closure merges the call's query parameters after every default configuration:
      they replace the defaults' values name by name, and fields and headers are the defaults'. */
  lemma FetcherQueryParamsLast(inits: seq<Init>, params: FetcherParams, name: string)
    ensures var base := MergeSpec(inits);
            var req := CreateFetcher(inits, params);
            var call := if params.queryParams.Some? then LastValue(RecordParamPairs(params.queryParams.value), name) else None;
            && req.path == params.path
            && req.init.fields == base.fields
            && req.init.headers == base.headers
            && ValuesOf(req.init.queryParams, name) ==
               match call
               case Some(v) => [v]
               case None => ValuesOf(base.queryParams, name)
  {
    if params.queryParams.Some? {
      QueryParamsReplace(inits, Object(params.queryParams.value), name);
    } else {
      NothingFromUndefinedOrFalsy(inits, "queryParams", Undefined);
    }
  }

  /** The merge sends a query value that is `undefined` as the text "undefined". */
  lemma UndefinedQueryValueSent()
    ensures CreateFetcher([], FetcherParams("/items", Some([("page", None)]))).init.queryParams == [("page", "undefined")]
  {
    var q: Record := [("page", None)];
    var obj: Init := [("queryParams", Object(q))];
    assert RecordParamPairs(q) == [("page", "undefined")] by {
      assert q[..0] == [];
    }
    assert SetAll([], [("page", "undefined")]) == [("page", "undefined")] by {
      assert [("page", "undefined")][..0] == [];
    }
    assert MergeEntries(Merged([], [], []), obj) == Merged([], [], [("page", "undefined")]) by {
      assert obj[..0] == [];
    }
    assert [] + [obj] == [obj];
    MergeAppendSource([], obj);
  }

  lemma LastDefinedAppend(a: Init, b: Init, name: string)
    ensures LastDefined(a + b, name) == if LastDefined(b, name).Some? then LastDefined(b, name) else LastDefined(a, name)
    decreases |b|
  {
    if b != [] {
      var ab := a + b;
      assert ab[..|ab| - 1] == a + b[..|b| - 1];
      assert ab[|ab| - 1] == b[|b| - 1];
      LastDefinedAppend(a, b[..|b| - 1], name);
    } else {
      assert a + b == a;
    }
  }

  lemma FlattenFour(a: Init, b: Init, c: Init, d: Init)
    ensures Flatten([a, b, c, d]) == a + b + c + d
  {
    assert [a, b, c, d][..3] == [a, b, c];
    assert [a, b, c][..2] == [a, b];
    assert [a, b][..1] == [a];
    assert [a][..0] == [];
    var none: Init := [];
    assert Flatten([a]) == none + a == a;
    assert Flatten([a, b]) == a + b;
    assert Flatten([a, b, c]) == a + b + c;
  }
}
