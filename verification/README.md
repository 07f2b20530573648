# google-optimize-service, modelled in Dafny

A model of the logic in `src/google-optimize-service.js`: the module-level
configuration registry with its three mutators (`key`, `location`,
`configure`), and the query-to-state extraction of `get` with its storage
lookup and storage write.

- `wrappers.dfy` — `Option` and `Result`.
- `jsvalue.dfy` — the JavaScript values the service inspects: `typeof`,
  truthiness, `in` and property reads, and the errors the service throws.
- `registry.dfy` — the `config` record (`key`, `location`, `storage`) and the
  mutators, each a pure transition to a `Completion`: the registry after the
  call plus the returned value or the thrown `TypeError`. Because a throw in
  `configure` does not roll back, the registry after a failed call is part of
  the result. `Valid` (a location object with a string `search`; storage
  `null` or an object with `getItem` and `setItem` functions) holds at module
  load and is preserved by every mutator, and `Location`/`Configure` take it
  as their precondition.
  Besides the code itself, `configure` is described declaratively
  (`Accepts`, `Apply`, `Order`, `FirstRejected`): it applies the options
  key, location, storage in that order up to the first rejected one.
- `query.dfy` — `location.search` with one leading `?` removed, parsed as
  node's `querystring.parse` parses it: `&`-separated pieces, empty pieces
  skipped, each piece cut at its first `=`, a repeated name becoming an
  array. Rendering plain pairs and parsing them back is proved to give the
  object those pairs describe, with repeated names collected into arrays.
- `resolver.dfy` — `get`, as the query parse followed by `Resolve`, the
  decisions taken on the parsed parameters. It never reads the registry: it reads the host's
  `location.search` and `localStorage`, so its input is an explicit `Env`
  (a host without `window` is the `Env` with neither). The storage key
  prefix is the parameter `prefix` (see Findings), JSON serialisation is the
  uninterpreted parameter `encode`, and a value read back from storage is
  `Restored(text)`, standing for `JSON.parse(text)`.

Facts about the code that shape the model: `key` accepts any string, `''`
included, and ignores other values (src/google-optimize-service.js:11-17);
`configure` recognises only the options `key`, `location` and `storage`
(src/google-optimize-service.js:39-67) and throws plain TypeErrors; `get`
builds one state record and reads and writes one storage key per
experiment id (src/google-optimize-service.js:87-117).

## Model

| member | source | states |
|---|---|---|
| Registry.DefaultIsValid | src/google-optimize-service.js:3-9 | The registry at load has key `'optimize'`, search `''`, no storage, and satisfies the registry invariant. |
| Registry.Key | src/google-optimize-service.js:11-17 | `key` never throws; a string (also `''`) becomes the key and is returned; any other argument leaves the registry untouched and the current key is returned. |
| Registry.KeyReadBack | src/google-optimize-service.test.js:42-63 | The default key reads back as `'optimize'`; a key set with a string reads back by an argument-less call; a later non-string call returns the set key unchanged. |
| Registry.Location | src/google-optimize-service.js:19-32 | A falsy argument only reads; an object with a string `search` replaces the location and a fresh `{search}` copy is returned; any other truthy argument throws a TypeError with the registry unchanged; key and storage are never touched; the invariant is kept. |
| Registry.LocationReadBack | src/google-optimize-service.test.js:107-119 | After setting a location object, reading returns its `search`, and a read changes nothing. |
| Registry.LocationRejectsPrimitives | src/google-optimize-service.test.js:121-153 | A non-empty string, a non-zero number, `true`, a function, an object without `search` and one whose `search` is a function each throw a TypeError and leave the registry as it was. |
| Registry.ConfigureKey | src/google-optimize-service.js:39-45 | The `key` option: absent is a no-op, a string sets the key, anything else throws with nothing changed. |
| Registry.ConfigureLocation | src/google-optimize-service.js:47-53 | The `location` option succeeds exactly when it is absent, `null` or a location object, and then has the effect of `Apply`; on failure the registry is unchanged. |
| Registry.ConfigureStorage | src/google-optimize-service.js:55-67 | The `storage` option succeeds exactly when it is absent or an object with function `getItem` and `setItem`; on success the storage is that very value, on failure the registry is unchanged. |
| Registry.Configure | src/google-optimize-service.js:34-68 | A non-object (and `null`) is refused before anything changes; otherwise the registry afterwards is the first options of key, location, storage applied up to the first rejected one (no rollback), the call succeeds exactly when none is rejected, errors are TypeErrors, and the invariant is kept. |
| Registry.ConfigureSucceedsIffAllAccepted | src/google-optimize-service.js:39-67 | configure succeeds if and only if all three options are absent or acceptable, and then applies key, location and storage in that order. |
| Registry.ConfigureKeepsEarlierOptions | src/google-optimize-service.js:39-66 | A valid key and location followed by a bad storage throw, yet leave the key and location applied and the storage as it was. |
| Registry.ConfigureNullLocationIsNoOp | src/google-optimize-service.js:47-53 | `configure({location: null})` passes the object check and succeeds without changing anything. |
| Registry.ConfigureKeyIsStricterThanKey | src/google-optimize-service.js:39-45 | A string `key` option has the effect of `key`; a non-string one throws, where `key` itself would have ignored it. |
| Registry.ConfigureIdempotent | src/google-optimize-service.js:34-68 | Repeating a successful configure with the same options returns the same registry and result. |
| Query.StripQuestion | src/google-optimize-service.js:79 | Exactly one leading `?` is removed when present; otherwise the search is unchanged. |
| Query.Split | src/google-optimize-service.js:78 | The query is cut into at least one piece, no piece holds the separator, and joining the pieces with it gives the query back. |
| Query.NameValue | src/google-optimize-service.js:78 | A piece is cut at its first `=`: the name holds no `=`, name `=` value is the piece, and a piece without `=` is a name with the empty value. |
| Query.Pairs | src/google-optimize-service.js:78 | Without empty pieces, every piece becomes the pair cut at its first `=`, one for one; pieces free of `&` give names free of `&` and `=` and values free of `&`. |
| Query.PairsSkipEmptyPiece | src/google-optimize-service.js:78 | An empty piece, from a leading, trailing or doubled `&`, contributes no pair. |
| Query.Parse | src/google-optimize-service.js:78 | The empty query has no parameters; no parameter name holds `&` or `=`, and no value holds `&`. |
| Query.Collect | src/google-optimize-service.js:78 | A parameter exists exactly for the names that occur, holds all their values in order, and is a string exactly when the name occurs once. |
| Query.SplitJoin | src/google-optimize-service.js:78 | Cutting joined separator-free parts at the separator recovers the parts. |
| Query.ParseRendered | src/google-optimize-service.js:78 | Parsing rendered `name=value&…` pairs (names without `&`/`=`, values without `&`; the empty list included) gives exactly the object those pairs describe, repeated names as arrays. |
| Query.ExperimentIdFromQuery | src/google-optimize-service.js:82-84 | A query naming `utm_expid` once with value `x` parses to `utm_expid` = `x`. |
| Query.FixtureQuery | src/google-optimize-service.test.js:3-5 | `?variant=V&utm_expid=E` parses to exactly `{variant: V, utm_expid: E}`. |
| Resolver.Extract | src/google-optimize-service.js:101-111 | The state has `variant`, `experimentId`, `referrer` exactly when the query has `variant`, `utm_expid`, `utm_referrer`, with the values copied verbatim, and is empty exactly when none is present. |
| Resolver.Resolve | src/google-optimize-service.js:73-125 | Corrected `get` (see Findings): a non-empty stored text under `prefix:utm_expid` (or `prefix:`) is returned as-is with nothing written; otherwise `null` exactly when none of `variant`, `utm_expid`, `utm_referrer` is present, else a state holding exactly those present, copied verbatim; the store is written exactly when a fresh state is returned and a store exists, under `prefix:(experimentId or '')`. |
| Resolver.Get | src/google-optimize-service.js:70-126 | `get` parses the page's search and resolves it against the page's store; a host without a location never yields a fresh state and never writes. |
| Resolver.LookupKeyIsWriteKey | src/google-optimize-service.js:82-115 | Corrected `get` (see Findings): the id looked up (`utm_expid` or `''`) and the id written under (`state.experimentId` or `''`) are the same for every query. |
| Resolver.ResolveThenResolveRestores | src/google-optimize-service.js:87-117 | Corrected `get` (see Findings): when nothing is stored for a query with a recognised parameter, `get` returns and saves the fresh state, and the next `get` on the same page returns that saved text from storage and writes nothing. |
| Resolver.FixtureGet | src/google-optimize-service.test.js:186-197 | Corrected `get` (see Findings): the fixture query against a store without its key yields `{variant, experimentId}` and saves it under `prefix:experimentId`. |
| Resolver.GetAsWritten | src/google-optimize-service.js:87-88 | As written, `get` throws a ReferenceError exactly when the host has a store; otherwise it returns the query state (or `null`) and touches no store. |
| Resolver.AsWrittenNeverPersists | src/google-optimize-service.js:113-117 | As written, no call of `get` changes the store; the fixture query with an empty store throws. |
| Resolver.AsWrittenAgreesWithoutStorage | src/google-optimize-service.js:95-125 | Without a store, the code as written and the corrected `get` return the same, whatever the prefix and encoding. |

## Findings

| source | as written | input that shows it | evidently intended | confidence | as-written member | corrected member |
|---|---|---|---|---|---|---|
| src/google-optimize-service.js:88 | the storage key is built from `LOCAL_STORAGE_KEY`, which is declared nowhere, so evaluating it throws a ReferenceError | any host with `localStorage`, e.g. search `?variant=tooltip&utm_expid=1` with an empty store | a declared key prefix, so that the state is looked up and saved under `prefix:experimentId` | high, not executed | Resolver.GetAsWritten | Resolver.Get |

The matching test of `get` (`src/google-optimize-service.test.js:161`) is
skipped. `Resolver.Get` takes the prefix as a parameter; the package tests
suggest the configured key was meant, which the shown code never reads.

## Left out

- `preventFlicker` (src/google-optimize-service.js:128-138): DOM class toggling and interval timers.
- `discover` and the default export that calls it (src/google-optimize-service.js:140-168): probing of the host `window`; the `configure` call it makes is just another input to `Registry.Configure`.
- Aliasing: `location` stores the caller's object, so a later change of that object shows through `location()`; values here are immutable and this is not modelled.
- JavaScript values: numbers are integers (NaN, -0 and fractions are not modelled), functions have no properties, and `in` sees only own properties (no prototype chain).
- `querystring.parse`: percent-decoding, `+` as space and the 1000-key limit are not modelled. The browser polyfill keeps empty pieces as the name `''`, which node skips; this never affects the three recognised parameters.
- `JSON.stringify` is the parameter `encode`; `JSON.parse` of a stored text is represented by the text itself (`Restored`), so a malformed stored text, on which `JSON.parse` throws, is not modelled.
- Resolver.Get: the storage key prefix is a parameter, because the source never declares one (see Findings).
- Resolver.Get: has no `experimentId` argument, because the argument of `get` (src/google-optimize-service.js:70) is shadowed by the local `let experimentId` (src/google-optimize-service.js:74) and never read.
- Autopersist, a mapping of experiments keyed by id, and the configured key as the storage key are expected by the package tests (src/package-tests/node.js:6-44) but have no code in this version of the service.
