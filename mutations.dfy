/**
 * `useXMutation` as an object whose methods update its state cells in place: the request a
 * call sends (path and configuration) and the gated writes of its outcomes, for
 * src/use-xmutation.ts and src/hooks.ts (class `Mutation`) and src/index.ts (class
 * `LegacyMutation`). Every method is proved to move the cells as `MutationMachine.Apply` does.
 */
module Mutations {
  import opened JsValues
  import opened Pairs
  import opened PathTemplate
  import opened RequestInits
  import opened MutationMachine
  import BraceTemplate
  import ReadKeys

  /** The `params` of one call: path variables, query parameters (never read) and body. */
  datatype MutationParams<B> = MutationParams(pathVariables: Option<PathVariables>, queryParams: Option<Record>, body: Option<B>)

  /** What a call hands to `xmutate`. */
  datatype MutationRequest<B> = MutationRequest(httpMethod: string, path: string, body: Option<B>, config: Init)

  /** The result of starting a call: nothing sent (a disabled call), or request number `gen`. */
  datatype Dispatch<B> = NotSent | Sent(gen: nat, request: MutationRequest<B>)

  /** `{data: responseData}`, returned by a resolved call whether or not it was aborted. */
  datatype MutateResult<R> = MutateResult(data: R)

  // ---------------------------------------------------------------------------------
  // The path of a call

  /** src/use-xmutation.ts: with path variables at the hook or the call, `urlLike` substituted
      with `{...options.pathVariables, ...params.pathVariables}`. */
  function MutationPath(urlLike: string, hookVars: Option<PathVariables>, callVars: Option<PathVariables>): string {
    if callVars.Some? || hookVars.Some? then Replace(urlLike, Spread([hookVars.GetOr([]), callVars.GetOr([])]))
    else urlLike
  }

  /** src/index.ts: brace placeholders and the call's path variables. */
  function LegacyMutationPath(path: string, callVars: Option<PathVariables>): string {
    if callVars.Some? then BraceTemplate.Replace(path, callVars.value) else path
  }

  /** A placeholder takes the call's entry for its name when the call has one (even an
      `undefined` one, which keeps the placeholder), else the hook's; with no path variables
      anywhere the path is `urlLike` unchanged. */
  lemma MutationPathPlaceholder(name: string, rest: string, hookVars: Option<PathVariables>, callVars: Option<PathVariables>)
    requires IsName(name)
    requires rest == [] || !IsNameChar(rest[0])
    ensures var call := LastValue(callVars.GetOr([]), name);
            var chosen := if call.Some? then call else LastValue(hookVars.GetOr([]), name);
            MutationPath([':'] + name + rest, hookVars, callVars) ==
              (if chosen.Some? && chosen.value.Some? then chosen.value.value else [':'] + name) +
              MutationPath(rest, hookVars, callVars)
  {
    var merged := Spread([hookVars.GetOr([]), callVars.GetOr([])]);
    SpreadTwo(hookVars.GetOr([]), callVars.GetOr([]), name);
    if callVars.Some? || hookVars.Some? {
      ReplacePlaceholder(name, rest, merged);
    } else {
      assert MutationPath([':'] + name + rest, hookVars, callVars) == [':'] + name + rest;
    }
  }

  /** src/hooks.ts substitutes the call's path variables only, as its read does: the current
      revision without hook-level path variables. */
  lemma HooksMutationPathAgrees(urlLike: string, callVars: Option<PathVariables>)
    requires callVars.Some? ==> UniqueNames(callVars.value)
    ensures ReadKeys.ResolvedPath(urlLike, callVars) == MutationPath(urlLike, None, callVars)
  {
    if callVars.Some? {
      var vars := callVars.value;
      var none: PathVariables := [];
      forall name ensures Get(Spread([none, vars]), name) == Get(vars, name) {
        SpreadTwo(none, vars, name);
        UniqueGetIsLast(vars, name);
      }
      ReplaceRespectsContent(urlLike, Spread([none, vars]), vars);
    }
  }

  /** The oldest read, once its key carries the substituted path, reads the resource the
      mutation with the same path variables writes. */
  lemma LegacyReadMatchesMutation(path: string, params: ReadKeys.ReadParams)
    requires ReadKeys.LegacyReadKey(path, Some(params)).Some?
    ensures ReadKeys.LegacyReadKey(path, Some(params)).value.path == LegacyMutationPath(path, params.pathVariables)
  {
  }

  // ---------------------------------------------------------------------------------
  // The configuration of a call

  /** `{...ctx.requestInit, ...ctx.mutationsRequestInit, ...options?.requestInit, ...requestInit}`
      (src/use-xmutation.ts and src/hooks.ts alike). */
  function MutationConfig(scope: Scope, hookInit: Option<Init>, callInit: Option<Init>): Init {
    Spread([scope.requestInit, scope.mutationsRequestInit, OrEmpty(hookInit), OrEmpty(callInit)])
  }

  /** Each field comes from the call's configuration, else the hook's, else the context's
      mutation configuration, else its shared one; an `undefined` there is copied too. */
  lemma MutationConfigPrecedence(scope: Scope, hookInit: Option<Init>, callInit: Option<Init>, name: string)
    ensures Get(MutationConfig(scope, hookInit, callInit), name) ==
            if LastValue(OrEmpty(callInit), name).Some? then LastValue(OrEmpty(callInit), name)
            else if LastValue(OrEmpty(hookInit), name).Some? then LastValue(OrEmpty(hookInit), name)
            else if LastValue(scope.mutationsRequestInit, name).Some? then LastValue(scope.mutationsRequestInit, name)
            else LastValue(scope.requestInit, name)
  {
    var a, b, c, d := scope.requestInit, scope.mutationsRequestInit, OrEmpty(hookInit), OrEmpty(callInit);
    SpreadLastWins([a, b, c, d], name);
    assert [a, b, c, d][..3] == [a, b, c];
    assert [a, b, c][..2] == [a, b];
    assert [a, b][..1] == [a];
    assert [a][..0] == [];
    assert LastWith([a], name) == LastValue(a, name);
    assert LastWith([a, b], name) == if LastValue(b, name).Some? then LastValue(b, name) else LastWith([a], name);
    assert LastWith([a, b, c], name) == if LastValue(c, name).Some? then LastValue(c, name) else LastWith([a, b], name);
  }

  /** src/index.ts: `{...options?.requestInit, ...requestInit}`. */
  function LegacyMutationConfig(hookInit: Option<Init>, callInit: Option<Init>): Init {
    Spread([OrEmpty(hookInit), OrEmpty(callInit)])
  }

  lemma LegacyMutationConfigPrecedence(hookInit: Option<Init>, callInit: Option<Init>, name: string)
    ensures Get(LegacyMutationConfig(hookInit, callInit), name) ==
            if LastValue(OrEmpty(callInit), name).Some? then LastValue(OrEmpty(callInit), name)
            else LastValue(OrEmpty(hookInit), name)
  {
    SpreadTwo(OrEmpty(hookInit), OrEmpty(callInit), name);
  }

  /** The request of an enabled call. */
  function MutationRequestFor<B>(urlLike: string, hookVars: Option<PathVariables>, scope: Scope, hookInit: Option<Init>,
                                 httpMethod: string, params: MutationParams<B>, callInit: Option<Init>): MutationRequest<B> {
    MutationRequest(httpMethod, MutationPath(urlLike, hookVars, params.pathVariables), params.body,
                    MutationConfig(scope, hookInit, callInit))
  }

  /** The call's `queryParams` reach neither the path nor the configuration. */
  lemma MutationIgnoresQueryParams<B>(urlLike: string, hookVars: Option<PathVariables>, scope: Scope, hookInit: Option<Init>,
                                      httpMethod: string, params: MutationParams<B>, callInit: Option<Init>, queryParams: Option<Record>)
    ensures MutationRequestFor(urlLike, hookVars, scope, hookInit, httpMethod, params.(queryParams := queryParams), callInit) ==
            MutationRequestFor(urlLike, hookVars, scope, hookInit, httpMethod, params, callInit)
  {
  }

  // ---------------------------------------------------------------------------------
  // src/use-xmutation.ts and src/hooks.ts

  /** One mounted `useXMutation`: its arguments, its state cells and its controller ref. */
  class Mutation<B, R, E> {
    const urlLike: Option<string>
    /** `options.pathVariables`; always absent for the revision of src/hooks.ts. */
    const pathVariables: Option<PathVariables>
    const requestInit: Option<Init>
    const scope: Scope

    var error: Option<MutationError<E>>
    var isSuccess: bool
    var isMutating: bool
    var data: Option<R>
    /** Controllers installed in the ref so far; the current one is number `controllers`. */
    var controllers: nat
    /** Whether teardown aborted the current controller. */
    var currentAborted: bool

    function State(): MutationState<R, E>
      reads this
    {
      MutationState(error, isSuccess, isMutating, data, controllers, currentAborted)
    }

    /** `isError`: `error !== null`. */
    predicate IsError()
      reads this
    {
      State().IsError()
    }

    constructor(urlLike: Option<string>, pathVariables: Option<PathVariables>, requestInit: Option<Init>, scope: Scope)
      ensures State() == Initial()
      ensures this.urlLike == urlLike && this.pathVariables == pathVariables
      ensures this.requestInit == requestInit && this.scope == scope
    {
      this.urlLike := urlLike;
      this.pathVariables := pathVariables;
      this.requestInit := requestInit;
      this.scope := scope;
      error := None;
      isSuccess := false;
      isMutating := false;
      data := None;
      controllers := 0;
      currentAborted := false;
    }

    /** `mutate(method, params, requestInit)`: abort the current controller, install a fresh
        one, then either report "Disabled" and send nothing, or reset the cells and send. */
    method Mutate(httpMethod: string, params: MutationParams<B>, callInit: Option<Init>) returns (d: Dispatch<B>)
      modifies this
      ensures State() == Apply(old(State()), Start(Truthy(urlLike), httpMethod))
      ensures IsError() == !Truthy(urlLike)
      ensures !Truthy(urlLike) ==> d == NotSent
      ensures Truthy(urlLike) ==>
                d == Sent(controllers, MutationRequestFor(urlLike.value, pathVariables, scope, requestInit, httpMethod, params, callInit))
    {
      controllers := controllers + 1;
      currentAborted := false;
      if !Truthy(urlLike) {
        error := Some(Disabled(httpMethod));
        isSuccess := false;
        isMutating := false;
        data := None;
        return NotSent;
      }
      error := None;
      isSuccess := false;
      isMutating := true;
      data := None;
      var path := MutationPath(urlLike.value, pathVariables, params.pathVariables);
      d := Sent(controllers, MutationRequest(httpMethod, path, params.body, MutationConfig(scope, requestInit, callInit)));
    }

    method Del(params: MutationParams<B>, callInit: Option<Init>) returns (d: Dispatch<B>)
      modifies this
      ensures State() == Apply(old(State()), Start(Truthy(urlLike), "DELETE"))
      ensures d == if Truthy(urlLike)
                   then Sent(controllers, MutationRequestFor(urlLike.value, pathVariables, scope, requestInit, "DELETE", params, callInit))
                   else NotSent
    {
      d := Mutate("DELETE", params, callInit);
    }

    method Post(params: MutationParams<B>, callInit: Option<Init>) returns (d: Dispatch<B>)
      modifies this
      ensures State() == Apply(old(State()), Start(Truthy(urlLike), "POST"))
      ensures d == if Truthy(urlLike)
                   then Sent(controllers, MutationRequestFor(urlLike.value, pathVariables, scope, requestInit, "POST", params, callInit))
                   else NotSent
    {
      d := Mutate("POST", params, callInit);
    }

    method Put(params: MutationParams<B>, callInit: Option<Init>) returns (d: Dispatch<B>)
      modifies this
      ensures State() == Apply(old(State()), Start(Truthy(urlLike), "PUT"))
      ensures d == if Truthy(urlLike)
                   then Sent(controllers, MutationRequestFor(urlLike.value, pathVariables, scope, requestInit, "PUT", params, callInit))
                   else NotSent
    {
      d := Mutate("PUT", params, callInit);
    }

    /** The `then` of request `gen`: write only if its controller is not aborted; return
        `{data}` either way. */
    method Resolve(gen: nat, response: R) returns (result: MutateResult<R>)
      modifies this
      ensures State() == Apply(old(State()), Event.Resolve(gen, response))
      ensures result == MutateResult(response)
    {
      if gen >= 1 && gen == controllers && !currentAborted {
        isSuccess := true;
        error := None;
        data := Some(response);
      }
      result := MutateResult(response);
    }

    /** The `catch` of request `gen`: write only if not aborted; rethrow the error either way. */
    method Reject(gen: nat, err: E) returns (thrown: E)
      modifies this
      ensures State() == Apply(old(State()), Event.Reject(gen, err))
      ensures thrown == err
    {
      if gen >= 1 && gen == controllers && !currentAborted {
        error := Some(Failed(err));
        isSuccess := false;
        data := None;
      }
      thrown := err;
    }

    /** The `finally` of request `gen`. */
    method Settle(gen: nat)
      modifies this
      ensures State() == Apply(old(State()), Event.Settle(gen))
    {
      if gen >= 1 && gen == controllers && !currentAborted {
        isMutating := false;
      }
    }

    /** The cleanup of the unmount effect: abort the current controller, if any. */
    method Teardown()
      modifies this
      ensures State() == Apply(old(State()), Event.Teardown)
    {
      if controllers > 0 {
        currentAborted := true;
      }
    }
  }

  // ---------------------------------------------------------------------------------
  // src/index.ts

  /** The oldest `useXMutation`: no disabled check, no data cell, no teardown. */
  class LegacyMutation<B, R, E> {
    const path: string
    const requestInit: Option<Init>

    var error: Option<MutationError<E>>
    var isSuccess: bool
    var isMutating: bool
    var controllers: nat

    function State(): MutationState<R, E>
      reads this
    {
      MutationState(error, isSuccess, isMutating, None, controllers, false)
    }

    constructor(path: string, requestInit: Option<Init>)
      ensures State() == Initial()
      ensures this.path == path && this.requestInit == requestInit
    {
      this.path := path;
      this.requestInit := requestInit;
      error := None;
      isSuccess := false;
      isMutating := false;
      controllers := 0;
    }

    /** Abort the current controller, install a fresh one, reset the cells and send. */
    method Mutate(httpMethod: string, params: MutationParams<B>, callInit: Option<Init>) returns (d: Dispatch<B>)
      modifies this
      ensures State() == WithoutData(Apply(old(State()), Start(true, httpMethod)))
      ensures d == Sent(controllers, MutationRequest(httpMethod, LegacyMutationPath(path, params.pathVariables), params.body,
                                                     LegacyMutationConfig(requestInit, callInit)))
    {
      controllers := controllers + 1;
      error := None;
      isSuccess := false;
      isMutating := true;
      var p := LegacyMutationPath(path, params.pathVariables);
      d := Sent(controllers, MutationRequest(httpMethod, p, params.body, LegacyMutationConfig(requestInit, callInit)));
    }

    method Del(params: MutationParams<B>, callInit: Option<Init>) returns (d: Dispatch<B>)
      modifies this
      ensures State() == WithoutData(Apply(old(State()), Start(true, "DELETE")))
      ensures d == Sent(controllers, MutationRequest("DELETE", LegacyMutationPath(path, params.pathVariables), params.body,
                                                     LegacyMutationConfig(requestInit, callInit)))
    {
      d := Mutate("DELETE", params, callInit);
    }

    method Post(params: MutationParams<B>, callInit: Option<Init>) returns (d: Dispatch<B>)
      modifies this
      ensures State() == WithoutData(Apply(old(State()), Start(true, "POST")))
      ensures d == Sent(controllers, MutationRequest("POST", LegacyMutationPath(path, params.pathVariables), params.body,
                                                     LegacyMutationConfig(requestInit, callInit)))
    {
      d := Mutate("POST", params, callInit);
    }

    method Put(params: MutationParams<B>, callInit: Option<Init>) returns (d: Dispatch<B>)
      modifies this
      ensures State() == WithoutData(Apply(old(State()), Start(true, "PUT")))
      ensures d == Sent(controllers, MutationRequest("PUT", LegacyMutationPath(path, params.pathVariables), params.body,
                                                     LegacyMutationConfig(requestInit, callInit)))
    {
      d := Mutate("PUT", params, callInit);
    }

    /** The `then`: the raw response is returned, the cells written only if not aborted. */
    method Resolve(gen: nat, response: R) returns (result: R)
      modifies this
      ensures State() == WithoutData(Apply(old(State()), Event.Resolve(gen, response)))
      ensures result == response
    {
      if gen >= 1 && gen == controllers {
        isSuccess := true;
        error := None;
      }
      result := response;
    }

    method Reject(gen: nat, err: E) returns (thrown: E)
      modifies this
      ensures State() == WithoutData(Apply(old(State()), Event.Reject(gen, err)))
      ensures thrown == err
    {
      if gen >= 1 && gen == controllers {
        error := Some(Failed(err));
        isSuccess := false;
      }
      thrown := err;
    }

    method Settle(gen: nat)
      modifies this
      ensures State() == WithoutData(Apply(old(State()), Event.Settle(gen)))
    {
      if gen >= 1 && gen == controllers {
        isMutating := false;
      }
    }
  }
}
