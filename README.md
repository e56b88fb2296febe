# use-xfetch: a verified model of its request-building core

use-xfetch is a set of React hooks over the `xfetch` HTTP client: `useXFetch` and
`useXInfinite` read through SWR, and `useXMutation` sends DELETE, POST and PUT requests.
Three revisions of the hooks live side by side in the repository: the current one
(`src/use-xfetch.ts`, `src/use-xinfinite.ts`, `src/use-xmutation.ts`, with `src/fetcher.ts` and
`src/helpers.ts`), an older one (`src/hooks.ts`) and the oldest (`src/index.ts`).

This project models the parts of the hooks that decide what is requested and what state is
shown:

- **Path templates** (`path_template.dfy`, `brace_template.dfy`). `replacePathVariables`
  rewrites every `:name` placeholder in one left-to-right pass. A name is a maximal run of
  `[a-zA-Z0-9_]`. An `undefined` value keeps the placeholder; any other value, "" included,
  replaces it. The oldest revision rewrites `{name}` placeholders instead, and it keys on
  whether the name is present at all. `src/hooks.ts:21-29` is a verbatim copy of
  `src/helpers.ts:8-16`, so the same function `PathTemplate.Replace` models both.
- **Request configurations** (`request_inits.dfy`, `fetcher.dfy`). `mergeRequestInits` folds
  configurations left to right:
  - `undefined` values are skipped;
  - `headers` are gathered in a `Headers` object (`set` for a `Headers` instance, `append` for
    a plain object, names lowercased as in section 5.1 of the WHATWG Fetch Standard);
  - `queryParams` are gathered in a `URLSearchParams` object, with `set`;
  - every other field is overwritten by the later configuration.

  `createFetcher` merges the call's query parameters last. The older revisions merge with
  object spread instead.
- **Read keys** (`read_keys.dfy`). The SWR key of each read hook is null when the read is
  disabled; otherwise it holds the resolved path and the query parameters. The model also
  covers the configuration each read's fetcher builds.
- **The mutation controller** (`mutation_machine.dfy`, `mutations.dfy`):
  - Each call aborts the `AbortController` in the ref and installs a fresh one.
  - The call's `then`, `catch` and `finally` write the state cells only while its own
    controller is not aborted.
  - The unmount cleanup aborts the current controller.
  - The controllers are numbered in installation order, so "not aborted" means "the newest
    call, and no teardown since".
  - `MutationMachine` is the state machine as a pure function of the events.
  - `Mutations.Mutation` and `Mutations.LegacyMutation` are classes whose methods update the
    cells in place, each proved to move them as the machine does.

JavaScript values are modelled explicitly:

- `undefined` is `None` (or `Value.Undefined` in a configuration), and `value + ""` of
  `undefined` is "undefined".
- Objects are lists of entries in `Object.entries` order with distinct names, as in a JS object, and
  `Pairs.Get` reads a name's entry. `Pairs.Spread` and `Pairs.Set` keep one entry per name, so
  a later spread or `set` replaces the earlier value. Only the `Headers` and
  `URLSearchParams` lists, read with `Pairs.ValuesOf`, may repeat a name.
- Truthiness of `urlLike` and of the resolved path is "present and not empty".

## Model

| member | source | states |
|---|---|---|
| PathTemplate.Replace | src/helpers.ts:8-16 | defines `replacePathVariables` (and its copy at src/hooks.ts:21-29): the path split into literals and `:name` placeholders, each placeholder replaced by its defined value or kept |
| PathTemplate.NameRunIsMaximal | src/helpers.ts:9 | the placeholder name after `:` is the longest run of `[a-zA-Z0-9_]` characters: all of them name characters, and the next one is not |
| PathTemplate.LonePlaceholder | src/helpers.ts:9-15 | a path that is just `:name` becomes what `name` is substituted by |
| PathTemplate.ScanUnscan | src/helpers.ts:9 | splitting a path into literals and placeholders loses nothing: the pieces spell the path back |
| PathTemplate.ScanWellFormed | src/helpers.ts:9 | every placeholder found has a non-empty name that is not followed by another name character |
| PathTemplate.ScanUnique | src/helpers.ts:9 | the split is unique: well-formed pieces split back into themselves |
| PathTemplate.ReplaceAppend | src/helpers.ts:9 | text after a point where no name continues is rewritten independently of what precedes it |
| PathTemplate.ReplacePlaceholder | src/helpers.ts:10-14 | a placeholder whose value is defined (even "") becomes that value; an absent or `undefined` one stays `:name`; the rest of the path is rewritten on its own |
| PathTemplate.ReplaceWithoutValues | src/helpers.ts:10-12 | with no defined value the path comes back unchanged |
| PathTemplate.ReplaceEmpty | src/helpers.ts:8-16 | with `{}` the path comes back unchanged |
| PathTemplate.ReplaceRespectsContent | src/helpers.ts:10 | only the value each name looks up matters, not the order or repetition of entries |
| PathTemplate.ReplaceUnscan | src/helpers.ts:9-15 | rewriting the text of well-formed pieces rewrites each piece on its own |
| PathTemplate.NoRescan | src/helpers.ts:9 | for example, `:a` with a ↦ ":b" and b ↦ "x" gives ":b": the rewrite is a single pass (for every value, `PathTemplate.ReplacePlaceholder` shows that a value is emitted as is) |
| BraceTemplate.Replace | src/index.ts:6-13 | defines the oldest `replacePathVariables`: the path split into literals and `{name}` matches, each match replaced by its stringified value when the name is a key, else kept |
| BraceTemplate.CloseIndexIsFirst | src/index.ts:7 | a `{` placeholder ends at the first `}` after it: the index found holds `}` and none comes before it |
| BraceTemplate.HeadNameIsName | src/index.ts:7 | a match at the head of a path is `{`, a non-empty run without `}`, and `}` |
| BraceTemplate.HeadNameOfPlaceholder | src/index.ts:7 | a `{name}` with a non-empty name free of `}` is matched as a whole, whatever follows it |
| BraceTemplate.ScanUnscan | src/index.ts:7 | splitting into literals and `{name}` placeholders loses nothing, and every name is non-empty and free of `}` |
| BraceTemplate.ReplacePlaceholder | src/index.ts:8-11 | a `{name}` whose name is a key becomes the value stringified (`undefined` too); one whose name is not a key stays `{name}` |
| BraceTemplate.LiteralPrefix | src/index.ts:7 | text without `{` is copied through unchanged |
| BraceTemplate.ReplaceEmpty | src/index.ts:6-13 | with `{}` the path comes back unchanged |
| BraceTemplate.UndefinedValueDiffers | src/index.ts:8-9 | for example, `{id}` with `id` present and `undefined` gives "undefined", while `:id` with the same value is kept (the general rules are the two `ReplacePlaceholder` lemmas) |
| RequestInits.SpreadKeepsUndefined | src/use-xmutation.ts:99-104 | for every name and earlier value, spreading configurations copies a later `undefined` over the earlier definition, unlike `mergeRequestInits` |
| Fetcher.MergeEntry | src/fetcher.ts:30-55 | defines one property's effect: `undefined` skipped; `headers` set from a `Headers` instance or appended from a truthy object; `queryParams` set from a `URLSearchParams` or a truthy object; any other field overwritten |
| Fetcher.MergeSpec | src/fetcher.ts:23-63 | defines the merge as the fold of `MergeEntry` over every property of every configuration, left to right, from empty fields, headers and query |
| Fetcher.CreateFetcher | src/fetcher.ts:18-21 | defines the closure's request: the key's path, and the merge of the configurations followed by `{ queryParams }` |
| Fetcher.MergeRequestInits | src/fetcher.ts:23-63 | the loop over every configuration and entry computes exactly the left-to-right fold `MergeSpec` |
| Fetcher.MergeProperty | src/fetcher.ts:29-56 | one entry is skipped when `undefined`, merged into the headers or query accumulator, or stored as a field |
| Fetcher.SetHeaders | src/fetcher.ts:34-35 | a `Headers` instance's pairs are `set` one after another, lowercased |
| Fetcher.AppendHeaders | src/fetcher.ts:36-39 | a plain headers object's pairs are appended in order, lowercased and stringified |
| Fetcher.SetParams | src/fetcher.ts:44-49 | query pairs are `set` one after another |
| Fetcher.MergedFieldIsLastDefinition | src/fetcher.ts:28-55 | a field other than headers and query is the last defined value any configuration gives it, and absent if there is none |
| Fetcher.MergeNothing | src/fetcher.ts:23-62 | merging no configurations gives no fields and empty headers and query |
| Fetcher.NothingFromUndefinedOrFalsy | src/fetcher.ts:30-51 | an `undefined`, or a falsy `headers` or `queryParams`, leaves the merged result unchanged |
| Fetcher.HeadersInstanceOverwrites | src/fetcher.ts:34-35 | a `Headers` instance leaves one value per name it carries, its last, and keeps other names' values |
| Fetcher.PlainHeadersAppend | src/fetcher.ts:36-39 | a plain headers object keeps the earlier values of a name and adds its own after them |
| Fetcher.QueryParamsReplace | src/fetcher.ts:44-49 | a query object replaces all earlier values of each name it carries with its last one |
| Fetcher.HeaderNamesLowercase | src/fetcher.ts:33-40 | no merged header name has an upper-case letter |
| Fetcher.FetcherQueryParamsLast | src/fetcher.ts:18-21 | a query parameter of the call replaces every default value of that name; other names keep the defaults' values |
| Fetcher.UndefinedQueryValueSent | src/fetcher.ts:46-49 | for example, `{page: undefined}` as the call's query parameters is sent as `page=undefined` |
| ReadKeys.ResolvedPath | src/use-xfetch.ts:49 | defines the substituted path: `urlLike` rewritten with the path variables when they are given, else `urlLike` (also src/use-xinfinite.ts:53 and src/hooks.ts:82) |
| ReadKeys.ParsedPath | src/use-xfetch.ts:46-50 | defines `parsedPath`: null when `params` or `urlLike` is falsy or the read is disabled, else `ResolvedPath` (also src/use-xinfinite.ts:50-54 and src/hooks.ts:79-83) |
| ReadKeys.ReadKey | src/use-xfetch.ts:46-53 | defines the SWR key: null when `params`, `urlLike` or the substituted path is falsy or the read is disabled; else the path and `params.queryParams` |
| ReadKeys.XFetchRequest | src/use-xfetch.ts:55-56 | defines the read's request: `createFetcher` over the context's shared and read configurations and the hook's, applied to the key |
| ReadKeys.PageKeyFor | src/use-xinfinite.ts:56-71 | defines a page's key: null when `params` or the substituted path is falsy; else the path, the page's query parameters, the index and `infinite: true` |
| ReadKeys.PageQuery | src/use-xinfinite.ts:62-65 | defines a page's query parameters: the function's result for the index and the previous page's data, or the static object |
| ReadKeys.InfiniteInits | src/use-xinfinite.ts:73-77 | defines the configurations a paginated read merges: the context's shared and paginated ones (each `{}` under `ignoreContext`), then the hook's or `{}` |
| ReadKeys.PageRequest | src/use-xinfinite.ts:72-77 | defines a page's request: `createFetcher` over the context's shared and paginated configurations (both `{}` with `ignoreContext`) and the hook's |
| ReadKeys.EntryTexts | src/hooks.ts:75-76 | defines the `name:value` text of each path variable, in entry order, `undefined` written "undefined" |
| ReadKeys.Join | src/hooks.ts:77 | defines `join(",")`: the texts separated by commas, "" for none |
| ReadKeys.PathVarsHash | src/hooks.ts:73-78 | defines `pathVarsHash`: "" for a falsy `params`, else `name:value` of each path variable joined by commas |
| ReadKeys.HooksReadKey | src/hooks.ts:79-85 | defines the older key: null as for `ReadKey`, else the substituted path and the whole `params` |
| ReadKeys.QueryOf | src/hooks.ts:92-94 | defines the spread of one configuration's `queryParams`: a plain object's properties, nothing otherwise |
| ReadKeys.HooksQuerySources | src/hooks.ts:91-96 | defines the four query sources in spread order: the context's shared and read ones, the hook's, and the key's `params.queryParams` |
| ReadKeys.HooksFetchInit | src/hooks.ts:86-96 | defines the older fetcher's configuration: the spread of the three configurations with `queryParams` the spread of the four query sources |
| ReadKeys.LegacyParsedPath | src/index.ts:30-33 | defines `p`: null for a falsy `params`, else the path brace-substituted when `params.pathVariables` is given, else the path |
| ReadKeys.LegacyReadKeyAsWritten | src/index.ts:30-35 | defines the oldest key as written: null when `params` or `p` is falsy, else `params` with the unsubstituted `path` |
| ReadKeys.LegacyFetchAsWritten | src/index.ts:36-41 | defines the oldest request as written: the key's path, the hook's configuration, and as query the spread of that configuration |
| ReadKeys.ReadKeySpec | src/use-xfetch.ts:46-53 | the key is null exactly when `params` or `urlLike` is falsy, the read is disabled, or the resolved path is empty; otherwise it is the resolved path with the call's query parameters |
| ReadKeys.ReadKeyContentOnly | src/use-xfetch.ts:49-53 | path variables that look up the same values give the same key |
| ReadKeys.EmptySubstitutionDisablesRead | src/use-xfetch.ts:52-53 | for example, `:id` with `id` set to "" resolves to "" and disables the read although `urlLike` is truthy (the general rule is `ReadKeys.ReadKeySpec`) |
| ReadKeys.XFetchPrecedence | src/use-xfetch.ts:56 | the request goes to the key's path; a field comes from the hook's configuration, else the context's read one, else its shared one; the key's query parameters win name by name |
| ReadKeys.PageKeyNullIff | src/use-xinfinite.ts:50-58 | a page key is null exactly when the read is disabled or the resolved path is empty, for every page alike |
| ReadKeys.PageKeyContent | src/use-xinfinite.ts:60-68 | a page key holds the resolved path, the page index, `infinite`, and the query the per-page function gives (or the static object) |
| ReadKeys.StaticPagesDifferOnlyInIndex | src/use-xinfinite.ts:62-65 | with a static query object, two pages' keys differ only in their index |
| ReadKeys.IgnoreContextDropsScope | src/use-xinfinite.ts:73-77 | with `ignoreContext` a page's request is the one the hook's own configuration alone gives |
| ReadKeys.HooksKeyAgreesWithReadKey | src/hooks.ts:79-85 | the older key is null exactly when the current one is, with the same path and query parameters |
| ReadKeys.PathVarsHashOrderSensitive | src/hooks.ts:73-78 | the hash follows entry order: for any two variables whose names are distinct and free of `:`, the two entry orders hash differently though they resolve every path identically (JS fixes the order of array-index names such as "0", so for those only one order arises) |
| ReadKeys.PathVarsHashIgnoresPresence | src/hooks.ts:74-75 | a falsy `params` and one without path variables hash alike, though one disables the read and the other does not |
| ReadKeys.PathVarsHashUndefinedCollision | src/hooks.ts:76 | for example, `{a: undefined}` and `{a: "undefined"}` both hash to "a:undefined", yet `:a` resolves to ":a" and to "undefined" |
| ReadKeys.PathVarsHashSeparatorCollision | src/hooks.ts:75-77 | for any strings x and y, one variable `a` holding x + ",b:" + y hashes like the two variables `a` = x and `b` = y, yet ":a/:b" resolves differently under the two |
| ReadKeys.HooksFetchPrecedence | src/hooks.ts:87-96 | a field comes whole, `undefined` included, from the last configuration holding it; a query parameter comes from the key's params, else the last default holding it |
| ReadKeys.LegacyReadIgnoresVariables | src/index.ts:35 | as written, the key carries the template: for any path `prefix + "{id}"` (no `{` in the prefix) and a non-empty value `v` of `id`, the template is requested although `p` is `prefix + v` |
| ReadKeys.LegacyReadKey | src/index.ts:35 | defines the corrected oldest key: null exactly as written, else `params` with `p` as the path |
| ReadKeys.LegacyReadKeyRequestsParsedPath | src/index.ts:30-35 | the corrected key is null exactly when the written one is, and requests the template with its placeholders substituted |
| ReadKeys.LegacyQueryDropsCallParams | src/index.ts:39 | as written, the call's query parameters are dropped and the hook's configuration fields are sent as query parameters |
| ReadKeys.LegacyFields | src/index.ts:37-38 | defines the request's configuration: the hook's configuration spread, without the `queryParams` property the next line replaces |
| ReadKeys.LegacyFetch | src/index.ts:36-41 | defines the corrected oldest request: the key's path, `LegacyFields`, and as query the hook's `queryParams` spread under the key's |
| ReadKeys.LegacyFieldsKeepAllButQuery | src/index.ts:37-38 | the request passes on every property of the hook's configuration but `queryParams`, which is replaced |
| ReadKeys.LegacyFetchSendsCallParams | src/index.ts:36-41 | corrected, a query parameter comes from the call's params, else from the hook's query parameters |
| MutationMachine.Apply | src/use-xmutation.ts:74-155 | defines one event's effect on the cells and the controller ref: a call (disabled or enabled), a resolve, reject or settle of call `gen` (written only while it is live), the unmount cleanup |
| MutationMachine.StartInstallsFreshController | src/use-xmutation.ts:75-92 | a call aborts every earlier controller and installs a live one; a disabled call shows "Disabled" and is not in flight; an enabled one clears error and data and is in flight |
| MutationMachine.StaleOutcomeIgnored | src/use-xmutation.ts:105-124 | an outcome of a call whose controller is aborted changes nothing |
| MutationMachine.LiveOutcomeShown | src/use-xmutation.ts:105-121 | the live call's success shows its data with no error; its failure shows the error with no data |
| MutationMachine.OnlyOwnEventsMatter | src/use-xmutation.ts:74-125 | between two calls, dropping every other call's outcomes changes nothing |
| MutationMachine.NewestCallDecides | src/use-xmutation.ts:89-124 | after an enabled call, until the next call or teardown, the cells are decided by its own last outcome and whether it has settled |
| MutationMachine.NewestCallAfterAnyHistory | src/hooks.ts:187-240 | whatever came before, only the newest call's outcomes are observable until the next call or teardown |
| MutationMachine.TeardownFreezes | src/use-xmutation.ts:149-155 | after the unmount cleanup no outcome changes the state |
| MutationMachine.RunKeepsConsistent | src/use-xmutation.ts:81-124 | in any interleaving, the data cell holds the live call's response (possibly `undefined`) exactly after a success, and a success carries no error |
| Mutations.MutationPath | src/use-xmutation.ts:94-97 | defines the call's path: `urlLike` substituted with the hook's path variables spread under the call's, when either is given |
| Mutations.LegacyMutationPath | src/index.ts:76 | defines the oldest call's path: brace substitution with the call's path variables, when given |
| Mutations.MutationConfig | src/use-xmutation.ts:99-104 | defines the call's configuration: the spread of the context's shared and write configurations, the hook's and the call's |
| Mutations.LegacyMutationConfig | src/index.ts:78 | defines the oldest call's configuration: the spread of the hook's and the call's |
| Mutations.MutationRequestFor | src/use-xmutation.ts:94-104 | defines an enabled call's request: method, `MutationPath`, body and `MutationConfig` |
| Mutations.MutationPathPlaceholder | src/use-xmutation.ts:94-97 | a placeholder takes the call's path variable, else the hook's; with no path variables anywhere the path is `urlLike` |
| Mutations.HooksMutationPathAgrees | src/hooks.ts:208-210 | the older revision's path, the call's path variables substituted as its read does (`ReadKeys.ResolvedPath`), is the current one without hook-level path variables |
| Mutations.LegacyReadMatchesMutation | src/index.ts:76 | the corrected oldest read requests the path the oldest mutation with the same path variables writes |
| Mutations.MutationConfigPrecedence | src/use-xmutation.ts:99-104 | a field comes from the call's configuration, else the hook's, else the context's mutation one, else its shared one |
| Mutations.LegacyMutationConfigPrecedence | src/index.ts:78 | a field comes from the call's configuration, else the hook's |
| Mutations.MutationIgnoresQueryParams | src/use-xmutation.ts:94-104 | the call's `queryParams` reach neither the path nor the configuration |
| Mutations.Mutation.constructor | src/use-xmutation.ts:66-72 | a mounted hook has no error, no data, nothing in flight and an empty controller ref |
| Mutations.Mutation.Mutate | src/use-xmutation.ts:74-104 | the cells move as a call does in the machine, `isError` holding exactly when the call is disabled; a disabled call sends nothing, an enabled one sends the resolved path, body and merged configuration under the new controller's number |
| Mutations.Mutation.Del | src/use-xmutation.ts:127-128 | exactly `Mutate` with method DELETE: the cells move as a DELETE call, and the result is `NotSent` when disabled, else the request numbered by the new controller with the resolved path, body and merged configuration |
| Mutations.Mutation.Post | src/use-xmutation.ts:130-131 | exactly `Mutate` with method POST: the cells move as a POST call, and the result is `NotSent` when disabled, else the request numbered by the new controller with the resolved path, body and merged configuration |
| Mutations.Mutation.Put | src/use-xmutation.ts:133-134 | exactly `Mutate` with method PUT: the cells move as a PUT call, and the result is `NotSent` when disabled, else the request numbered by the new controller with the resolved path, body and merged configuration |
| Mutations.Mutation.Resolve | src/use-xmutation.ts:105-113 | a success writes only while live, and `{data}` is returned either way |
| Mutations.Mutation.Reject | src/use-xmutation.ts:114-121 | a failure writes only while live, and the error is rethrown either way |
| Mutations.Mutation.Settle | src/use-xmutation.ts:122-124 | the `finally` clears in-flight only while live |
| Mutations.Mutation.Teardown | src/use-xmutation.ts:149-155 | the cleanup aborts the current controller, if any |
| Mutations.LegacyMutation.constructor | src/index.ts:58-62 | a mounted hook has no error, nothing in flight and an empty controller ref |
| Mutations.LegacyMutation.Mutate | src/index.ts:64-78 | every call is enabled and sent with the brace-substituted path and the two-level configuration; the cells move as in the machine, without a data cell |
| Mutations.LegacyMutation.Del | src/index.ts:100-103 | exactly `Mutate` with method DELETE: the cells move as a DELETE call, and the request numbered by the new controller carries the brace-substituted path, body and two-level configuration |
| Mutations.LegacyMutation.Post | src/index.ts:104-107 | exactly `Mutate` with method POST: the cells move as a POST call, and the request numbered by the new controller carries the brace-substituted path, body and two-level configuration |
| Mutations.LegacyMutation.Put | src/index.ts:108-111 | exactly `Mutate` with method PUT: the cells move as a PUT call, and the request numbered by the new controller carries the brace-substituted path, body and two-level configuration |
| Mutations.LegacyMutation.Resolve | src/index.ts:79-86 | a success writes only while live, and the raw response is returned |
| Mutations.LegacyMutation.Reject | src/index.ts:87-93 | a failure writes only while live, and the error is rethrown |
| Mutations.LegacyMutation.Settle | src/index.ts:94-96 | the `finally` clears in-flight only while live |

### Where the code and its documentation part

- Undefined query values are sent, not ignored. The doc comment at `src/fetcher.ts:5-7` says
  `undefined` query values are ignored. `mergeRequestInits` passes them to
  `URLSearchParams.set`, which stores "undefined". The model follows the code; see
  `Fetcher.UndefinedQueryValueSent`.
- The query merge keeps one value per name. It uses `set` with the value stringified, so a
  later configuration replaces every earlier value of a name. An array value becomes one
  comma-joined string; there is no repeated-parameter form.
- `pathVarsHash` (`src/hooks.ts:73-78`) is not a faithful summary of the path variables. It
  joins entries in `Object.entries` order and does not escape its separators, so it both splits
  equal variables and merges different ones (the four `PathVarsHash…` lemmas). Because it is
  the only memo dependency of `parsedPath` besides `urlLike`, these collisions can leave a
  stale path in use.
- A disabled mutation resolves to `undefined` instead of rejecting (`src/use-xmutation.ts:86`,
  `src/hooks.ts:200`). `Mutations.Mutation.Mutate` returns `NotSent` for it.
- The spread merges of the older revisions and of the mutation configuration copy an
  `undefined` over an earlier value. `mergeRequestInits` skips it instead.
- A mutation's `params.queryParams` is declared but never read.

## Findings

| source | as written | input that shows it | evidently intended | confidence | as-written member | corrected member |
|---|---|---|---|---|---|---|
| src/index.ts:35 | the SWR key is `{ ...params, path }`, and the fetcher requests `params.path`, the unsubstituted template | path "/project/{id}", pathVariables `{id: "7"}`: "/project/{id}" is requested while `p` is "/project/7" | the key carries `p`, the substituted path | high; not executed | ReadKeys.LegacyReadIgnoresVariables | ReadKeys.LegacyReadKeyRequestsParsedPath |
| src/index.ts:39 | `queryParams: { ...options?.requestInit, ...params.searchParams }`: the key has no `searchParams`, and the whole configuration is spread as query | params `{queryParams: {q: "x"}}`, requestInit `{method: "GET"}`: query `{method: "GET"}` is sent and `q` is not | `{ ...options?.requestInit?.queryParams, ...params.queryParams }` | high; not executed | ReadKeys.LegacyQueryDropsCallParams | ReadKeys.LegacyFetchSendsCallParams |

The as-written functions are `ReadKeys.LegacyReadKeyAsWritten` and
`ReadKeys.LegacyFetchAsWritten`. The corrected ones are `ReadKeys.LegacyReadKey` (also used
by `Mutations.LegacyReadMatchesMutation`) and `ReadKeys.LegacyFetch`.

## Left out

- React's rendering machinery is left out: state batching, effects, and the `onSuccess` and
  `onError` callbacks.
- Memo and callback dependency arrays are left out. Examples: `options.disabled` is read in
  `parsedPath` but is not one of its dependencies; `mutate` in `src/hooks.ts` and
  `src/index.ts` captures the context and options of the render that created it. The model
  reads the current arguments.
- SWR's caching, deduplication, revalidation and key hashing are left out. A key is modelled
  as the value handed to SWR.
- The network and `xfetch`/`xmutate` are left out. A request is the value passed to them, and
  their outcomes arrive as events in any order.
- `AbortController` is left out, apart from its `aborted` flag. The signal is never passed to
  the transport, so no request is cancelled.
- The JavaScript regular-expression engine is left out. Each placeholder regex is modelled by
  its own scanner.
- Coercion of non-string values (numbers, booleans, objects, arrays) by `value + ""` and by
  `URLSearchParams` is left out. Path, query and plain-header values are strings or
  `undefined`.
- The order `Object.entries` gives is taken as the entry list's order. JavaScript lists
  array-index names ("0", "1", ...) first, in ascending order, and the other names after them
  in insertion order. The model does not impose that rule, so it also admits lists with
  array-index names out of order, which no JS object produces.
- Prototype-chain lookups (`pathVariables["constructor"]`, `key in` on inherited names) are
  left out. A lookup sees the object's own entries only.
- Header value normalization and validation, and `Headers` iteration order (sorted, with
  duplicates combined), are left out. A `Headers` instance is the list of pairs its `forEach`
  visits.
- Configuration values that are neither `undefined`, falsy, a plain object, a `Headers` nor a
  `URLSearchParams` instance are opaque.
- Spreading a `URLSearchParams` or `Headers` instance in the older revisions is modelled as
  contributing nothing.
- The context provider (`src/xcontext.tsx`) is modelled as the `Scope` value each hook
  receives, with every fragment defaulting to `{}`.
- Mutations.Mutation.Resolve: accepts an outcome for any number, including that of a
  disabled call that sent nothing; the transport never produces such an outcome, so the model
  does not rule it out.
- Mutations.LegacyMutation.Resolve: same as for `Mutation.Resolve`.
- MutationMachine.RunKeepsConsistent: a success whose response is `undefined` is
  `Some(undefined)` in the model's data cell, while the hook's `data` then reads `undefined`,
  as it does before any call or after a failure. The hook's `data` alone cannot tell these
  apart; the returned `{ data }` object can.
