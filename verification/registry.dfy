/** The module-level `config` record of the service and its three mutators:
    `key`, `location` and `configure`. Each mutator is a pure transition from
    the registry before the call to a `Completion`: the registry after the
    call together with either the returned value or the thrown error. */
module Registry {
  import opened Wrappers
  import opened JsValue

  /** The registry: the storage namespace, the location object the query is
      read from, and the storage handle (`null` until configured). */
  datatype Config = Config(key: string, location: Value, storage: Value)

  /** The registry after a call, and what the call returned or threw. */
  datatype Completion<T> = Completion(config: Config, result: Result<T, Error>)

  /** An object whose `search` property is a string. */
  predicate IsLocation(v: Value) {
    v.Obj? && "search" in v.props && v.props["search"].Str?
  }

  /** An object implementing `getItem` and `setItem` as functions. */
  predicate IsStorage(v: Value) {
    v.Obj? && "getItem" in v.props && v.props["getItem"].Func?
    && "setItem" in v.props && v.props["setItem"].Func?
  }

  /** What every mutator preserves: the location is a location object and the
      storage is either unset or a storage object. */
  predicate Valid(c: Config) {
    IsLocation(c.location) && (c.storage.Null? || IsStorage(c.storage))
  }

  /** The registry at module load. */
  const Default: Config := Config("optimize", Obj(map["search" := Str("")]), Null)

  /** `config.location.search`. */
  function Search(c: Config): string
    requires Valid(c)
  {
    c.location.props["search"].s
  }

  /** The fresh `{search}` object that `location` returns. */
  function SearchCopy(search: string): Value {
    Obj(map["search" := Str(search)])
  }

  lemma DefaultIsValid()
    ensures Valid(Default)
    ensures Default.key == "optimize" && Search(Default) == "" && Default.storage.Null?
  {
  }

  /** `key(newKey)`: a string (the empty one included) becomes the key; any
      other argument is ignored. Never throws; returns the key in force. */
  function Key(c: Config, newKey: Value): (r: Completion<string>)
    ensures r.result.Ok?
    ensures newKey.Str? ==> r.config == c.(key := newKey.s) && r.result.value == newKey.s
    ensures !newKey.Str? ==> r.config == c && r.result.value == c.key
    ensures r.result.value == r.config.key
    ensures Valid(c) ==> Valid(r.config)
  {
    var next := if newKey.Str? then c.(key := newKey.s) else c;
    Completion(next, Ok(next.key))
  }

  /** `location(newLocation)`: a falsy argument only reads; an object with a
      string `search` replaces the location; anything else truthy throws a
      TypeError and leaves the registry as it was. Returns a fresh copy
      holding only `search`. */
  function Location(c: Config, newLocation: Value): (r: Completion<Value>)
    requires Valid(c)
    ensures Valid(r.config)
    ensures !Truthy(newLocation) ==> r == Completion(c, Ok(SearchCopy(Search(c))))
    ensures Truthy(newLocation) && IsLocation(newLocation) ==>
              r.config == c.(location := newLocation)
              && r.result == Ok(SearchCopy(newLocation.props["search"].s))
    ensures Truthy(newLocation) && !IsLocation(newLocation) ==>
              r.config == c && r.result.Err? && r.result.error.TypeError?
    ensures r.config.key == c.key && r.config.storage == c.storage
  {
    if !Truthy(newLocation) then
      Completion(c, Ok(SearchCopy(Search(c))))
    else if !IsObjectLike(newLocation) then
      Completion(c, Err(TypeError(InOperatorOnPrimitive)))
    else if Has(newLocation, "search") && Property(newLocation, "search").Str? then
      var next := c.(location := newLocation);
      Completion(next, Ok(SearchCopy(Search(next))))
    else
      Completion(c, Err(TypeError(InvalidLocation)))
  }

  // ---------------------------------------------------------------------
  // configure: three option handlers run in a fixed order.

  /** The `key` option handler. */
  function ConfigureKey(c: Config, opts: Value): (r: Completion<()>)
    requires opts.Obj?
    ensures Valid(c) ==> Valid(r.config)
    ensures "key" !in opts.props ==> r == Completion(c, Ok(()))
    ensures "key" in opts.props && opts.props["key"].Str? ==>
              r == Completion(c.(key := opts.props["key"].s), Ok(()))
    ensures "key" in opts.props && !opts.props["key"].Str? ==>
              r == Completion(c, Err(TypeError(KeyNotString)))
  {
    if !Has(opts, "key") then Completion(c, Ok(()))
    else if TypeOf(Property(opts, "key")) != "string" then Completion(c, Err(TypeError(KeyNotString)))
    else Completion(Key(c, Property(opts, "key")).config, Ok(()))
  }

  /** The `location` option handler: the value must have `typeof` object
      (so `null` passes and, being falsy, changes nothing). */
  function ConfigureLocation(c: Config, opts: Value): (r: Completion<()>)
    requires opts.Obj? && Valid(c)
    ensures Valid(r.config)
    ensures r.result.Ok? <==> Accepts(opts, LocationOption)
    ensures r.config == if r.result.Ok? then Apply(c, opts, LocationOption) else c
  {
    if !Has(opts, "location") then Completion(c, Ok(()))
    else if TypeOf(Property(opts, "location")) != "object" then Completion(c, Err(TypeError(LocationNotObject)))
    else
      var step := Location(c, Property(opts, "location"));
      Completion(step.config, if step.result.Ok? then Ok(()) else Err(step.result.error))
  }

  /** The `storage` option handler: the value must have `typeof` object and
      implement `getItem`, then `setItem`, as functions. */
  function ConfigureStorage(c: Config, opts: Value): (r: Completion<()>)
    requires opts.Obj? && Valid(c)
    ensures Valid(r.config)
    ensures r.result.Ok? <==> Accepts(opts, StorageOption)
    ensures r.config == if r.result.Ok? then Apply(c, opts, StorageOption) else c
  {
    if !Has(opts, "storage") then Completion(c, Ok(()))
    else
      var storage := Property(opts, "storage");
      if TypeOf(storage) != "object" then Completion(c, Err(TypeError(StorageNotObject)))
      else if storage.Null? then Completion(c, Err(TypeError(PropertyOfNull)))
      else if TypeOf(Property(storage, "getItem")) != "function" then
        Completion(c, Err(TypeError(MissingFunction("getItem"))))
      else if TypeOf(Property(storage, "setItem")) != "function" then
        Completion(c, Err(TypeError(MissingFunction("setItem"))))
      else Completion(c.(storage := storage), Ok(()))
  }

  /** `configure(opts)`. */
  function Configure(c: Config, opts: Value): (r: Completion<()>)
    requires Valid(c)
    ensures Valid(r.config)
    ensures TypeOf(opts) != "object" ==> r == Completion(c, Err(TypeError(OptsNotObject)))
    ensures opts.Null? ==> r == Completion(c, Err(TypeError(InOperatorOnPrimitive)))
    ensures opts.Obj? ==>
              var i := FirstRejected(opts, Order);
              && r.config == ApplyAll(c, opts, Order[..i])
              && (r.result.Ok? <==> i == |Order|)
    ensures r.result.Err? ==> r.result.error.TypeError?
  {
    if TypeOf(opts) != "object" then Completion(c, Err(TypeError(OptsNotObject)))
    else if opts.Null? then Completion(c, Err(TypeError(InOperatorOnPrimitive)))
    else
      OrderUnfolds(c, opts);
      var afterKey := ConfigureKey(c, opts);
      if afterKey.result.Err? then afterKey
      else
        var afterLocation := ConfigureLocation(afterKey.config, opts);
        if afterLocation.result.Err? then afterLocation
        else ConfigureStorage(afterLocation.config, opts)
  }

  /** configure's three options, written out one by one. */
  lemma OrderUnfolds(c: Config, opts: Value)
    requires opts.Obj?
    ensures FirstRejected(opts, Order) ==
              if !Accepts(opts, KeyOption) then 0
              else if !Accepts(opts, LocationOption) then 1
              else if !Accepts(opts, StorageOption) then 2
              else 3
    ensures ApplyAll(c, opts, Order[..0]) == c
    ensures ApplyAll(c, opts, Order[..1]) == Apply(c, opts, KeyOption)
    ensures ApplyAll(c, opts, Order[..2]) == Apply(Apply(c, opts, KeyOption), opts, LocationOption)
    ensures ApplyAll(c, opts, Order[..3]) ==
              Apply(Apply(Apply(c, opts, KeyOption), opts, LocationOption), opts, StorageOption)
  {
    var c1 := Apply(c, opts, KeyOption);
    var c2 := Apply(c1, opts, LocationOption);
    var c3 := Apply(c2, opts, StorageOption);
    assert Order[..0] == [];
    assert Order[..1] == [KeyOption] && Order[..2] == [KeyOption, LocationOption] && Order[..3] == Order;
    assert ApplyAll(c2, opts, [StorageOption]) == ApplyAll(c3, opts, []) == c3;
    assert ApplyAll(c1, opts, [LocationOption, StorageOption]) == ApplyAll(c2, opts, [StorageOption]);
    assert ApplyAll(c1, opts, [LocationOption]) == ApplyAll(c2, opts, []);
    assert FirstRejected(opts, [StorageOption]) == if Accepts(opts, StorageOption) then 1 else 0;
    assert FirstRejected(opts, [LocationOption, StorageOption])
        == if Accepts(opts, LocationOption) then 1 + FirstRejected(opts, [StorageOption]) else 0;
  }

  // ---------------------------------------------------------------------
  // A declarative account of configure: which options it accepts, what an
  // accepted option does, and the order in which they are considered.

  datatype OptionName = KeyOption | LocationOption | StorageOption

  /** The order in which configure considers its options. */
  const Order: seq<OptionName> := [KeyOption, LocationOption, StorageOption]

  function Name(o: OptionName): string {
    match o
    case KeyOption => "key"
    case LocationOption => "location"
    case StorageOption => "storage"
  }

  /** An option that is absent, or present with a value configure accepts. */
  predicate Accepts(opts: Value, o: OptionName)
    requires opts.Obj?
  {
    Name(o) !in opts.props ||
    var v := opts.props[Name(o)];
    match o
    case KeyOption => v.Str?
    case LocationOption => v.Null? || IsLocation(v)
    case StorageOption => IsStorage(v)
  }

  /** The effect of an accepted option on the registry. */
  function Apply(c: Config, opts: Value, o: OptionName): Config
    requires opts.Obj?
  {
    if Name(o) !in opts.props then c
    else
      var v := opts.props[Name(o)];
      match o
      case KeyOption => if v.Str? then c.(key := v.s) else c
      case LocationOption => if v.Obj? then c.(location := v) else c
      case StorageOption => c.(storage := v)
  }

  /** The registry after applying `os` in order. */
  function ApplyAll(c: Config, opts: Value, os: seq<OptionName>): Config
    requires opts.Obj?
    decreases |os|
  {
    if os == [] then c else ApplyAll(Apply(c, opts, os[0]), opts, os[1..])
  }

  /** The index of the first option of `os` that is rejected, or `|os|`. */
  function FirstRejected(opts: Value, os: seq<OptionName>): (i: nat)
    requires opts.Obj?
    ensures i <= |os|
    ensures forall j :: 0 <= j < i ==> Accepts(opts, os[j])
    ensures i < |os| ==> !Accepts(opts, os[i])
  {
    if os == [] then 0
    else if !Accepts(opts, os[0]) then 0
    else 1 + FirstRejected(opts, os[1..])
  }

  // ---------------------------------------------------------------------
  // Properties relating several calls.

  /** The default key is 'optimize'; a later string, even the empty one, is
      read back by an argument-less call; a non-string is ignored. */
  lemma KeyReadBack(c: Config, s: string, other: Value)
    requires !other.Str?
    ensures Key(Default, Undefined).result == Ok("optimize")
    ensures Key(Key(c, Str(s)).config, Undefined).result == Ok(s)
    ensures Key(Key(c, Str(s)).config, other) == Key(c, Str(s))
  {
  }

  /** A location set by `location` is what a later read returns, and reading
      is a pure query. */
  lemma LocationReadBack(c: Config, newLocation: Value)
    requires Valid(c) && IsLocation(newLocation)
    ensures var written := Location(c, newLocation);
            && Location(written.config, Undefined) == Completion(written.config, written.result)
            && written.result == Ok(SearchCopy(newLocation.props["search"].s))
  {
  }

  /** Every truthy argument that is not a location object is refused, the
      primitive ones included. */
  lemma LocationRejectsPrimitives(c: Config, s: string, n: int, id: nat)
    requires Valid(c) && s != "" && n != 0
    ensures Location(c, Str(s)) == Completion(c, Err(TypeError(InOperatorOnPrimitive)))
    ensures Location(c, Num(n)) == Completion(c, Err(TypeError(InOperatorOnPrimitive)))
    ensures Location(c, Bool(true)) == Completion(c, Err(TypeError(InOperatorOnPrimitive)))
    ensures Location(c, Func(id)) == Completion(c, Err(TypeError(InvalidLocation)))
    ensures Location(c, Obj(map[])) == Completion(c, Err(TypeError(InvalidLocation)))
    ensures Location(c, Obj(map["search" := Func(id)])) == Completion(c, Err(TypeError(InvalidLocation)))
  {
  }

  /** configure succeeds exactly when every option it recognises is absent
      or acceptable, and then applies all of them. */
  lemma ConfigureSucceedsIffAllAccepted(c: Config, opts: Value)
    requires Valid(c) && opts.Obj?
    ensures Configure(c, opts).result.Ok? <==>
              Accepts(opts, KeyOption) && Accepts(opts, LocationOption) && Accepts(opts, StorageOption)
    ensures Configure(c, opts).result.Ok? ==>
              Configure(c, opts).config ==
              Apply(Apply(Apply(c, opts, KeyOption), opts, LocationOption), opts, StorageOption)
  {
  }

  /** There is no rollback: a bad storage handle after a good key and
      location leaves the key and location applied and the storage alone. */
  lemma ConfigureKeepsEarlierOptions(c: Config, k: string, loc: Value, storage: Value)
    requires Valid(c) && IsLocation(loc) && !IsStorage(storage)
    ensures var r := Configure(c, Obj(map["key" := Str(k), "location" := loc, "storage" := storage]));
            && r.result.Err?
            && r.config == c.(key := k, location := loc)
  {
  }

  /** `configure({location: null})` passes the object check and then does
      nothing, because `location(null)` only reads. */
  lemma ConfigureNullLocationIsNoOp(c: Config)
    requires Valid(c)
    ensures Configure(c, Obj(map["location" := Null])) == Completion(c, Ok(()))
  {
  }

  /** Unlike `key`, which ignores a non-string, the `key` option throws on one. */
  lemma ConfigureKeyIsStricterThanKey(c: Config, v: Value)
    requires Valid(c)
    ensures v.Str? ==> Configure(c, Obj(map["key" := v])) == Completion(Key(c, v).config, Ok(()))
    ensures !v.Str? ==> Configure(c, Obj(map["key" := v])) == Completion(c, Err(TypeError(KeyNotString)))
                        && Key(c, v).result.Ok?
  {
  }

  /** A successful configure, repeated with the same options, changes nothing more. */
  lemma ConfigureIdempotent(c: Config, opts: Value)
    requires Valid(c)
    ensures var r := Configure(c, opts);
            r.result.Ok? ==> Configure(r.config, opts) == r
  {
  }
}
