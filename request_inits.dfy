/**
 * Request-configuration objects (`XRequestInit`) and the default scopes that the context
 * providers hand to every hook.
 */
module RequestInits {
  import opened JsValues
  import opened Pairs

  /** A plain object whose values are strings or `undefined` (query parameters, header objects). */
  type Record = Entries<Option<string>>

  /** The value of one field of a request-configuration object. */
  datatype Value =
    | Undefined
      /** null, false, 0 or "": defined but falsy */
    | Falsy
      /** any other value without own enumerable properties (a method name, a body, a signal, ...) */
    | Opaque(repr: string)
      /** a plain object */
    | Object(entries: Record)
      /** a `Headers` object, by the pairs its `forEach` visits */
    | HeadersInstance(list: Entries<string>)
      /** a `URLSearchParams` object, by the pairs its `forEach` visits */
    | SearchParamsInstance(list: Entries<string>)
  {
    predicate Truthy() {
      !(Undefined? || Falsy?)
    }
  }

  /** `Object.entries(value)`: the plain object's properties; nothing for the other values. */
  function ObjectEntries(v: Value): Record {
    if v.Object? then v.entries else []
  }

  /** A request-configuration object, by its own properties in `Object.entries` order. */
  type Init = Entries<Value>

  /** The default request configurations of one provider: shared, for writes, for reads, for paginated reads. */
  datatype Scope = Scope(requestInit: Init, mutationsRequestInit: Init, fetchesRequestInit: Init, infiniteRequestInit: Init)

  /** An optional configuration spread or merged as `x || {}`. */
  function OrEmpty(init: Option<Init>): Init {
    init.GetOr([])
  }

  /** The spread merge of the older revisions lets a later `undefined` erase an earlier value. */
  lemma SpreadKeepsUndefined(name: string, earlier: Value)
    ensures Get(Spread([[(name, earlier)], [(name, Undefined)]]), name) == Some(Undefined)
  {
    SpreadLastWins([[(name, earlier)], [(name, Undefined)]], name);
  }
}
