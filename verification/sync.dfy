/**
 * The `Backbone.sync` override: normalise the legacy callback arguments, find
 * the adapter on the model or its collection, and pick the adapter operation
 * for the verb. The dispatch is a value naming the call that would be made.
 */
module Sync {
  import opened Wrappers
  import opened Records

  /** A callback; only its identity matters. `NoOp` is the empty default `function() {}`. */
  datatype Handler = NoOp | Callback(name: string)

  /** The callbacks of an options object, each possibly absent. */
  datatype Options = Options(success: Option<Handler>, error: Option<Handler>)

  /** `_defaultOptions(options)`: missing options or callbacks become no-ops; given callbacks are kept. */
  function DefaultOptions(options: Option<Options>): (r: Options)
    ensures r.success.Some? && r.error.Some?
    ensures options.Some? && options.value.success.Some? ==> r.success == options.value.success
    ensures options.Some? && options.value.error.Some? ==> r.error == options.value.error
    ensures options.None? || options.value.success.None? ==> r.success == Some(NoOp)
    ensures options.None? || options.value.error.None? ==> r.error == Some(NoOp)
  {
    var o := options.GetOr(Options(None, None));
    Options(Some(o.success.GetOr(NoOp)), Some(o.error.GetOr(NoOp)))
  }

  /** Filling in defaults a second time changes nothing. */
  lemma DefaultOptionsIdempotent(options: Option<Options>)
    ensures DefaultOptions(Some(DefaultOptions(options))) == DefaultOptions(options)
  {
  }

  /** What `Backbone.sync` receives after the model: an options object, or (Backbone 0.3.3 and older) two functions. */
  datatype SyncOptions = OptionsObject(options: Option<Options>) | LegacyCallbacks(success: Handler, error: Option<Handler>)

  /** `{success: options, error: error}` when `options` is a function; otherwise `options` unchanged. */
  function Normalise(o: SyncOptions): (r: Option<Options>)
    ensures o.LegacyCallbacks? ==> r == Some(Options(Some(o.success), o.error))
    ensures o.OptionsObject? ==> r == o.options
  {
    match o
    case OptionsObject(options) => options
    case LegacyCallbacks(success, error) => Some(Options(Some(success), error))
  }

  /** The identity of an `AppDataStore` instance. */
  type StoreRef = string

  /** A collection as far as `sync` looks at it: its `appDataStorage`. */
  datatype Collection = Collection(appDataStorage: Option<StoreRef>)

  /** The model handed to `sync`, with its own `appDataStorage` and its `collection`, each possibly absent. */
  datatype Target = Target(model: Model, appDataStorage: Option<StoreRef>, collection: Option<Collection>)

  /** The adapter operation `sync` invokes. */
  datatype Call = Find(model: Model) | FindAll | Create(model: Model) | Update(model: Model) | Destroy(model: Model)

  /**
   * The effect of one `sync`: a call on an adapter with the normalised options,
   * nothing at all (an unknown verb), or a TypeError (no adapter to call).
   */
  datatype Dispatch = Invoke(store: StoreRef, call: Call, options: Option<Options>) | NoDispatch | TypeError

  predicate KnownVerb(verb: string) {
    verb == "read" || verb == "create" || verb == "update" || verb == "delete"
  }

  /** `model.appDataStorage || model.collection.appDataStorage`; None is the TypeError of reading a missing collection. */
  function ResolveStore(t: Target): (r: Option<Option<StoreRef>>)
    ensures r.None? <==> t.appDataStorage.None? && t.collection.None?
    ensures t.appDataStorage.Some? ==> r == Some(t.appDataStorage)
    ensures t.appDataStorage.None? && t.collection.Some? ==> r == Some(t.collection.value.appDataStorage)
  {
    if t.appDataStorage.Some? then Some(t.appDataStorage)
    else match t.collection
      case None => None
      case Some(c) => Some(c.appDataStorage)
  }

  /** The call a verb selects: `read` goes to `find` when the model has an id and to `findAll` otherwise. */
  function CallFor(verb: string, m: Model): (c: Call)
    requires KnownVerb(verb)
    ensures verb == "read" && HasId(m) ==> c == Find(m)
    ensures verb == "read" && !HasId(m) ==> c == FindAll
    ensures verb == "create" ==> c == Create(m)
    ensures verb == "update" ==> c == Update(m)
    ensures verb == "delete" ==> c == Destroy(m)
  {
    if verb == "read" then (if HasId(m) then Find(m) else FindAll)
    else if verb == "create" then Create(m)
    else if verb == "update" then Update(m)
    else Destroy(m)
  }

  /** `Backbone.sync(method, model, options, error)`. */
  function Sync(verb: string, t: Target, o: SyncOptions): (d: Dispatch)
    ensures d.Invoke? <==> KnownVerb(verb) && ResolveStore(t).Some? && ResolveStore(t).value.Some?
    ensures d.Invoke? ==> d.store == ResolveStore(t).value.value
    ensures d.Invoke? ==> d.call == CallFor(verb, t.model) && d.options == Normalise(o)
    ensures d.TypeError? <==> ResolveStore(t).None? || (KnownVerb(verb) && ResolveStore(t).value.None?)
    ensures d.NoDispatch? <==> !KnownVerb(verb) && ResolveStore(t).Some?
  {
    var options := Normalise(o);
    match ResolveStore(t)
    case None => TypeError
    case Some(store) =>
      if !KnownVerb(verb) then NoDispatch
      else match store
        case None => TypeError
        case Some(ref) => Invoke(ref, CallFor(verb, t.model), options)
  }

  /** The model's own adapter takes precedence over its collection's. */
  lemma OwnStoreFirst(verb: string, t: Target, o: SyncOptions)
    requires KnownVerb(verb) && t.appDataStorage.Some?
    ensures Sync(verb, t, o) == Invoke(t.appDataStorage.value, CallFor(verb, t.model), Normalise(o))
  {
  }

  /** Legacy callback pairs dispatch exactly as the equivalent options object does. */
  lemma LegacyCallbacksAreNormalised(verb: string, t: Target, success: Handler, error: Option<Handler>)
    ensures Sync(verb, t, LegacyCallbacks(success, error)) == Sync(verb, t, OptionsObject(Some(Options(Some(success), error))))
  {
  }
}
