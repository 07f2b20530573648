/** `get`: the experiment state read from the page's query string, with a
    storage lookup in front and a storage write behind.

    `get` does not consult the registry: it reads the host's `location` and
    `localStorage` directly, so its inputs are an explicit environment. The
    storage key prefix is a parameter because the source never declares it
    (see `GetAsWritten`), and JSON serialisation is the uninterpreted
    parameter `encode`; a value restored from storage is represented by the
    stored text that `JSON.parse` would be applied to. */
module Resolver {
  import opened Wrappers
  import opened Query
  import JsValue

  /** A synchronous string-keyed, string-valued store. */
  type Store = map<string, string>

  /** The host as `get` sees it: `window.location.search` when the host has a
      location, and `window.localStorage` when it has one. A host without a
      window is the environment with neither. */
  datatype Env = Env(search: Option<string>, storage: Option<Store>)

  /** The state record built from the query; a field is present exactly when
      its parameter is. */
  datatype State = State(variant: Option<Param>, experimentId: Option<Param>, referrer: Option<Param>)

  /** What `get` returns: `null`, a state freshly read from the query, or the
      parse of a stored text. */
  datatype Returned = NullResult | Fresh(state: State) | Restored(text: string)

  /** What `get` returns, and the store after the call. */
  datatype Outcome = Outcome(returned: Returned, storage: Option<Store>)

  /** `Object.keys(state).length === 0`. */
  predicate IsEmpty(st: State) {
    st.variant.None? && st.experimentId.None? && st.referrer.None?
  }

  /** A parameter used as a string (template literal or concatenation): an
      array is joined with commas. */
  function ParamText(p: Param): string {
    Join(Texts(p), ',')
  }

  /** JavaScript truthiness of a parameter: the empty string is falsy, an array never is. */
  predicate ParamTruthy(p: Param) {
    !(p.One? && p.text == "")
  }

  /** The three recognised parameters copied into a state record. */
  function Extract(params: Params): (st: State)
    ensures st.variant.Some? <==> "variant" in params
    ensures st.experimentId.Some? <==> "utm_expid" in params
    ensures st.referrer.Some? <==> "utm_referrer" in params
    ensures st.variant.Some? ==> st.variant.value == params["variant"]
    ensures st.experimentId.Some? ==> st.experimentId.value == params["utm_expid"]
    ensures st.referrer.Some? ==> st.referrer.value == params["utm_referrer"]
    ensures IsEmpty(st) <==> "variant" !in params && "utm_expid" !in params && "utm_referrer" !in params
  {
    State(
      if "variant" in params then Some(params["variant"]) else None,
      if "utm_expid" in params then Some(params["utm_expid"]) else None,
      if "utm_referrer" in params then Some(params["utm_referrer"]) else None)
  }

  /** The parsed query of the environment; a host without a location has no parameters. */
  function EnvParams(env: Env): Params {
    if env.search.Some? then SearchParams(env.search.value) else map[]
  }

  /** The experiment id used for the storage lookup: `utm_expid`, or ''. */
  function LookupId(params: Params): string {
    if "utm_expid" in params then ParamText(params["utm_expid"]) else ""
  }

  /** The experiment id used for the storage write: `state.experimentId || ''`. */
  function WriteId(st: State): string {
    if st.experimentId.Some? && ParamTruthy(st.experimentId.value)
    then ParamText(st.experimentId.value)
    else ""
  }

  /** The storage key for an experiment: the prefix, a colon, the id. */
  function StorageKey(prefix: string, id: string): string {
    prefix + ":" + id
  }

  /** The stored text that short-circuits `get`: present and non-empty
      (`getItem` yields null for a missing key, and '' is falsy). */
  predicate StoredHit(params: Params, storage: Option<Store>, prefix: string) {
    storage.Some?
    && StorageKey(prefix, LookupId(params)) in storage.value
    && storage.value[StorageKey(prefix, LookupId(params))] != ""
  }

  /** The decisions `get` takes once the query is parsed: look up the store,
      else build the state, write it if it is non-empty, and return it or
      `null`. */
  function Resolve(params: Params, storage: Option<Store>, prefix: string, encode: State -> string): (r: Outcome)
    // A stored text under the looked-up key is returned as-is, and nothing is written.
    ensures StoredHit(params, storage, prefix) ==>
              r == Outcome(Restored(storage.value[StorageKey(prefix, LookupId(params))]), storage)
    // Otherwise null exactly when none of the three parameters is present,
    // and else the state with the parameters copied verbatim.
    ensures !StoredHit(params, storage, prefix) ==>
              && (r.returned.NullResult? <==>
                    "variant" !in params && "utm_expid" !in params && "utm_referrer" !in params)
              && (r.returned.Fresh? ==>
                    && (r.returned.state.variant.Some? <==> "variant" in params)
                    && (r.returned.state.experimentId.Some? <==> "utm_expid" in params)
                    && (r.returned.state.referrer.Some? <==> "utm_referrer" in params)
                    && ("variant" in params ==> r.returned.state.variant.value == params["variant"])
                    && ("utm_expid" in params ==> r.returned.state.experimentId.value == params["utm_expid"])
                    && ("utm_referrer" in params ==> r.returned.state.referrer.value == params["utm_referrer"]))
              && !r.returned.Restored?
    // The store is written exactly when a fresh state is returned and a
    // store exists, under the key of that state.
    ensures r.storage ==
              if storage.Some? && r.returned.Fresh?
              then Some(storage.value[StorageKey(prefix, WriteId(r.returned.state)) := encode(r.returned.state)])
              else storage
  {
    if StoredHit(params, storage, prefix) then
      Outcome(Restored(storage.value[StorageKey(prefix, LookupId(params))]), storage)
    else
      var st := Extract(params);
      var written :=
        if storage.Some? && !IsEmpty(st)
        then Some(storage.value[StorageKey(prefix, WriteId(st)) := encode(st)])
        else storage;
      Outcome(if IsEmpty(st) then NullResult else Fresh(st), written)
  }

  /** `get()` with the storage key prefix supplied: the page's query, parsed,
      resolved against the page's store. A host without a location behaves
      as an empty query, and so never yields a fresh state. */
  function Get(env: Env, prefix: string, encode: State -> string): (r: Outcome)
    ensures r == Resolve(EnvParams(env), env.storage, prefix, encode)
    ensures env.search.None? ==> !r.returned.Fresh? && r.storage == env.storage
  {
    Resolve(EnvParams(env), env.storage, prefix, encode)
  }

  // ---------------------------------------------------------------------
  // `get` as written: the prefix identifier is never declared.

  /** `get()` exactly as the source reads: evaluating the undeclared
      `LOCAL_STORAGE_KEY` throws a ReferenceError before `getItem` is called
      whenever the host has a store; without one, the query path runs. */
  function GetAsWritten(env: Env): (r: Result<Outcome, JsValue.Error>)
    ensures r.Err? <==> env.storage.Some?
    ensures r.Err? ==> r.error == JsValue.ReferenceError("LOCAL_STORAGE_KEY")
    ensures r.Ok? ==> r.value.storage.None? && !r.value.returned.Restored?
    ensures r.Ok? ==> (r.value.returned.NullResult? <==>
                         var params := EnvParams(env);
                         "variant" !in params && "utm_expid" !in params && "utm_referrer" !in params)
  {
    if env.storage.Some? then Err(JsValue.ReferenceError("LOCAL_STORAGE_KEY"))
    else
      var st := Extract(EnvParams(env));
      Ok(Outcome(if IsEmpty(st) then NullResult else Fresh(st), None))
  }

  /** As written, `get` never stores a state: with a store it throws, without
      one there is nothing to write to. The fixture query against an empty
      store, which the skipped test expects to be saved, throws instead. */
  lemma AsWrittenNeverPersists(env: Env, variant: string, expId: string)
    requires '&' !in variant && '&' !in expId
    ensures GetAsWritten(env).Ok? ==> GetAsWritten(env).value.storage == env.storage
    ensures GetAsWritten(Env(Some("?" + "variant" + "=" + variant + "&" + "utm_expid" + "=" + expId), Some(map[])))
            == Err(JsValue.ReferenceError("LOCAL_STORAGE_KEY"))
  {
  }

  /** Where the source does not throw, the corrected `get` behaves the same,
      whatever prefix and encoding it is given. */
  lemma AsWrittenAgreesWithoutStorage(env: Env, prefix: string, encode: State -> string)
    requires env.storage.None?
    ensures GetAsWritten(env) == Ok(Get(env, prefix, encode))
  {
  }

  // ---------------------------------------------------------------------
  // Properties of the corrected `get`.

  /** The key looked up before parsing the state and the key the state is
      written under agree: `${utm_expid}` and `state.experimentId || ''`
      name the same entry. */
  lemma LookupKeyIsWriteKey(params: Params)
    ensures LookupId(params) == WriteId(Extract(params))
  {
  }

  /** A state that `get` stored is what the next `get` on the same page
      returns from the store (provided its encoding is not the empty text,
      which `JSON.stringify` of an object never is). */
  lemma ResolveThenResolveRestores(params: Params, store: Store, prefix: string, encode: State -> string)
    requires !StoredHit(params, Some(store), prefix)
    requires "variant" in params || "utm_expid" in params || "utm_referrer" in params
    requires encode(Extract(params)) != ""
    ensures var first := Resolve(params, Some(store), prefix, encode);
            && first.returned == Fresh(Extract(params))
            && Resolve(params, first.storage, prefix, encode)
               == Outcome(Restored(encode(Extract(params))), first.storage)
  {
  }

  /** The service's fixture: `?variant=tooltip&utm_expid=1` with nothing
      stored under its key yields the variant and the experiment id, no
      referrer, and saves that state under `prefix:1`. */
  lemma FixtureGet(variant: string, expId: string, store: Store, prefix: string, encode: State -> string)
    requires '&' !in variant && '&' !in expId
    requires StorageKey(prefix, expId) !in store
    ensures var st := State(Some(One(variant)), Some(One(expId)), None);
            Get(Env(Some("?" + "variant" + "=" + variant + "&" + "utm_expid" + "=" + expId), Some(store)), prefix, encode)
            == Outcome(Fresh(st), Some(store[StorageKey(prefix, expId) := encode(st)]))
  {
    var search := "?" + "variant" + "=" + variant + "&" + "utm_expid" + "=" + expId;
    var env := Env(Some(search), Some(store));
    FixtureQuery(variant, expId);
    assert Texts(One(expId)) == [expId];
    assert LookupId(EnvParams(env)) == expId;
  }
}
