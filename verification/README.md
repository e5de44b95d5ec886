# AppDataStore, modelled in Dafny

This project models `AppDataStore`, the Backbone persistence adapter of
Backbone.OpenSocial. The adapter keeps a named collection of records in one
user's flat OpenSocial app-data key/value store. It uses two kinds of key:

- the **index key**, the store's own `name`, whose value is the member ids
  joined by commas;
- one **record key** per record, `name + "-" + id`, whose value is the
  record's JSON.

The model also covers the in-memory `osapi.appdata` fake that the adapter is
exercised against. That fake gives the transport a concrete semantics, so
each adapter operation is stated end to end as a pure transition over
`(Store, Backend)`. What each operation returns:

- `updateModel` (and so `create` and `update`), `find`, `findAll` and
  `destroy` return the adapter and backend afterwards, the requests they
  issued in order, and the outcome delivered to the caller:
  `success(value)`, `error(message)`, or an exception. A `findAll` served
  from pipelined data issues no request.
- The constructor returns the new adapter and its one `get` request.
- `updateIds` returns the fake's exchange: the backend afterwards and the
  reply. Its request is the separate `IndexWrite`.
- `isPipelined` returns a yes/no answer, or none where the source throws.
- `findAllByPipeline` returns the adapter and the outcome; it issues no
  request.

Modules, leaf first:

- `Wrappers` (wrappers.dfy): `Option`.
- `Text` (text.dfy): JavaScript `join`/`split` with a one-character
  separator, and `_.reject` of one value.
- `Numerals` (numerals.dfy): `Number#toString(radix)` and integer-to-string
  conversion for error codes.
- `Util` (util.dfy): `S4` and `guid`. A random draw replaces `Math.random`.
- `FakeAppData` (fake_appdata.dfy): the fake transport, with `get`, `update`,
  `delete`, the error switch and `execute`.
- `Records` (records.dfy): models, the abstract JSON codec, the record key,
  and id assignment.
- `Index` (index.dfy): how the id list is encoded and decoded, and the
  membership updates of create and destroy.
- `Replies` (replies.dfy): outcomes, the fixed error texts, and how replies
  are classified.
- `AppDataStore` (appdatastore.dfy): construction, `updateIds`,
  `updateModel`/`create`/`update`, `find`, `findAll`, `destroy`,
  `isPipelined` and `findAllByPipeline`. `create` and `update` are
  `updateModel` unchanged, so their properties are stated once, on
  `UpdateModel`.
- `Sync` (sync.dfy): the `Backbone.sync` dispatch and `_defaultOptions`.
- `Consistency` (consistency.dfy): end-to-end properties over the fake.
- `Findings` (findings.dfy): the empty-index defect described below.

## Model

| member | source | states |
|---|---|---|
| Text.Split | backbone.opensocial.appdatastore.js:17 | `split(",")` never returns an empty list, and no piece contains the separator |
| Text.JoinSplit | backbone.opensocial.appdatastore.js:17 | joining the pieces of any split gives back the original string |
| Text.SplitJoin | backbone.opensocial.appdatastore.js:44 | splitting a join gives back the parts, if there is at least one part and no part contains the separator |
| Text.RemoveAll | backbone.opensocial.appdatastore.js:163 | `_.reject(ids, ==id)` removes every copy of `id` and keeps every other id, with its multiplicity and relative order |
| Numerals.ToRadix | backbone.opensocial.appdatastore.js:29 | `toString(radix)` produces at least one digit, every character is a digit of that radix, zero is "0", and any other number has no leading zero |
| Numerals.FromToRadix | backbone.opensocial.appdatastore.js:29 | reading a rendered number back gives the number |
| Numerals.Decimal | backbone.opensocial.appdatastore.js:96 | `"" + code` starts with "-" exactly when the code is negative. The rest is a non-empty run of decimal digits with no leading zero, so the string has no space |
| Numerals.DecimalRoundTrip | backbone.opensocial.appdatastore.js:96 | reading a rendered error code back, with its optional minus sign, gives the code, so the rendering loses nothing |
| Numerals.DecimalInjective | backbone.opensocial.appdatastore.js:96 | different error codes render as different decimal strings |
| Util.ShiftedRendering | backbone.opensocial.appdatastore.js:29 | `(0x10000 + n).toString(16)` is "1" followed by the four hex digits of `n` |
| Util.S4 | backbone.opensocial.appdatastore.js:28-30 | `S4` gives exactly four lower-case hex digits, which read back as the draw |
| Util.Guid | backbone.opensocial.appdatastore.js:33-36 | `guid` gives 36 characters: "-" at positions 8, 13, 18 and 23 and nowhere else, hex digits elsewhere, and no comma |
| Util.GuidSplitsIntoGroups | backbone.opensocial.appdatastore.js:35 | splitting a guid on "-" gives five hex groups of 8, 4, 4, 4 and 12 digits |
| FakeAppData.Execute | spec/support/fake.osapi.appdata.js:68-78 | with the error switch set the request never runs: the store is unchanged and the callback gets `{error}`. Otherwise the callback gets the request's result and the store is what the request left |
| FakeAppData.Get | spec/support/fake.osapi.appdata.js:16-37 | `get` leaves the store unchanged and reports the error when the switch is set. Otherwise the reply has exactly one top-level key, the user id. Under it are the requested keys that exist, or the whole store when no fields are given |
| FakeAppData.Update | spec/support/fake.osapi.appdata.js:39-49 | `update` sets every given key, leaves every other key unchanged and returns `{}`. With the error switch set, the store is unchanged |
| FakeAppData.Delete | spec/support/fake.osapi.appdata.js:51-66 | `delete` removes exactly the listed keys that exist, returns their prior values and leaves other keys alone. With the error switch set, the store is unchanged |
| Replies.ErrorText | backbone.opensocial.appdatastore.js:96 | an error text, in the form used here and at lines 67, 132 and 154, starts with "Error " and ends with ": " followed by the transport's message |
| Replies.ErrorTextForCode500 | spec/backbone.opensocial.appdatastore.spec.js:304 | a failure with code 500 reads "Error 500 " followed by the action, ": " and the message, as the tests expect for every action (lines 117, 207, 268 and 304) |
| Replies.ErrorTextInjective | backbone.opensocial.appdatastore.js:96 | an error text determines the transport error code and message it reports |
| Replies.ErrorTextIsNotNotFound | backbone.opensocial.appdatastore.js:95-109 | a transport error text is never equal to "Model not found." or "Models not found." |
| Replies.SoleEntry | backbone.opensocial.appdatastore.js:14-16 | the lone value exists exactly when the reply has one top-level key, and it is that key's value |
| Replies.Classify | backbone.opensocial.appdatastore.js:95-98 | an `error` field means failure; otherwise exactly one top-level key means found, with that user's data |
| Replies.FakeGetIsFound | spec/support/fake.osapi.appdata.js:31-35 | a successful fake `get` is always classified as found, so the adapter's one-key test always passes on it |
| Records.HasId | backbone.opensocial.appdatastore.js:58 | the truthiness of `model.id`, tested here and at line 225: an absent id and the empty string are falsy, any other id is truthy |
| Records.RecordKey | backbone.opensocial.appdatastore.js:62 | a record key never equals the store's index key |
| Records.RecordIdOf | backbone.opensocial.appdatastore.js:62 | recovering an id from a key is sound: the recovered id rebuilds that key |
| Records.RecordKeyRoundTrip | backbone.opensocial.appdatastore.js:62 | every record key of the store is recognised, with its own id |
| Records.RecordKeyInjective | backbone.opensocial.appdatastore.js:62 | for a fixed store name, different ids give different record keys |
| Records.RecordKeys | backbone.opensocial.appdatastore.js:119 | the key list has one record key per id, in index order |
| Records.AssignId | backbone.opensocial.appdatastore.js:58 | an existing id is never overwritten. A missing or empty id is replaced by the fresh guid, set as both `id` and attribute `id`, and no other attribute changes |
| Index.Encode | backbone.opensocial.appdatastore.js:44 | `ids.join(",")` writes [] as "", and splitting the written value on commas gives back the ids when there is at least one and none has a comma |
| Index.DecodeAsWritten | backbone.opensocial.appdatastore.js:17 | the constructor's reading of a present index value always yields at least one id |
| Index.Decode | backbone.opensocial.appdatastore.js:191-192 | the pipeline's reading keeps every non-empty fragment of the comma split, with its multiplicity and in order, and drops every empty one, so only non-empty, comma-free ids are listed |
| Index.DecodeDropsLeadingEmpty | backbone.opensocial.appdatastore.js:191-192 | a non-canonical index such as ",X" is read as the single id X |
| Index.EncodeDecodeAsWritten | backbone.opensocial.appdatastore.js:17 | re-encoding the constructor's reading gives back the stored index value |
| Index.DecodeEncodeAsWritten | backbone.opensocial.appdatastore.js:14-17 | the constructor reads back the index `updateIds` wrote, for any non-empty list of comma-free ids |
| Index.EmptyIndexAsWritten | backbone.opensocial.appdatastore.js:17 | the empty list is written as "" and read back as [""], not [] |
| Index.DecodeEncode | backbone.opensocial.appdatastore.js:191-192 | dropping empty fragments makes the round trip hold for every list of non-empty, comma-free ids, the empty list included |
| Index.AppendIfAbsent | backbone.opensocial.appdatastore.js:74-75 | the id ends up listed. A listed id leaves the list unchanged; a new one is appended at the end |
| Index.AppendIfAbsentIdempotent | backbone.opensocial.appdatastore.js:74-77 | repeating the membership update changes nothing, and an id listed at most once ends up listed exactly once |
| Index.RemoveAllAppended | backbone.opensocial.appdatastore.js:162-163 | pushing the id before rejecting every copy of it removes the same elements as rejecting alone |
| Index.Remove | backbone.opensocial.appdatastore.js:161-163 | after destroy no copy of the id remains, and the other ids keep their multiplicity and order. An absent id leaves the list unchanged |
| AppDataStore.IndexValue | backbone.opensocial.appdatastore.js:11-16 | the index value counts only if the reply is one user's data holding the key `name`. Errors and other shapes give none |
| AppDataStore.IdsFromReplyAsWritten | backbone.opensocial.appdatastore.js:11-20 | the constructor callback as written: a present value is split on commas, and anything else gives [] |
| AppDataStore.IdsFromReply | backbone.opensocial.appdatastore.js:11-20 | the corrected callback gives [] on an error, on a reply without exactly one key, or when the key is missing. Otherwise it gives the decoded, well-formed ids |
| AppDataStore.OpenAsWritten | backbone.opensocial.appdatastore.js:1-21 | against the fake, construction as written sends one `get` of the index key. It gives `ids` = [] on an error or a missing index, and otherwise the stored value split on commas |
| AppDataStore.Open | backbone.opensocial.appdatastore.js:1-21 | against the fake, corrected construction sends one `get` of the index key. It gives `ids` = [] on an error or a missing index, and otherwise the decoded index. The pipeline flag starts unset |
| AppDataStore.UpdateIds | backbone.opensocial.appdatastore.js:41-52 | `updateIds` writes the joined ids under the store's name and touches nothing else. A failure changes nothing |
| AppDataStore.WriteOutcome | backbone.opensocial.appdatastore.js:65-71 | a write error is reported as "Error code action: message"; otherwise success is delivered |
| AppDataStore.UpdateModel | backbone.opensocial.appdatastore.js:54-78 | `updateModel` writes the record under `name-id`. A new id is appended and the index is written once; a listed id causes no index write. It delivers `{}` or the "updating application data" error text, and changes no other key |
| AppDataStore.Destroy | backbone.opensocial.appdatastore.js:146-166 | `destroy` deletes the record and removes every copy of a listed id, writing the index once; an absent id causes no index write. It delivers the model, or the "destroying model" error text |
| AppDataStore.DecodeAll | backbone.opensocial.appdatastore.js:137 | parsing every key succeeds exactly when every key is present and parseable. The result then has one record per key, in key order |
| AppDataStore.FindReply | backbone.opensocial.appdatastore.js:94-110 | `find` reply handling: the retrieving-model error text, "Model not found." for a wrong shape or a missing key, and otherwise the parsed record |
| AppDataStore.Find | backbone.opensocial.appdatastore.js:87-111 | against the fake, `find` requests exactly the record key. It delivers the parsed record when the key exists, and otherwise the not-found or error text |
| AppDataStore.FindAllReply | backbone.opensocial.appdatastore.js:130-142 | `findAll` reply handling: the retrieving-model error text, "Models not found." for a wrong shape, and otherwise the parsed records in key order |
| AppDataStore.DecodeAllSelected | spec/support/fake.osapi.appdata.js:20-29 | parsing the listed keys from the fake's selection is the same as parsing them from the whole store |
| AppDataStore.IsPipelined | backbone.opensocial.appdatastore.js:168-180 | true exactly when the flag is unset, a snapshot exists and it holds the index key under the viewer. A missing viewer entry throws |
| AppDataStore.PipelinedIds | backbone.opensocial.appdatastore.js:190-192 | a missing index lists no ids. A present one lists every non-empty fragment of its comma split, with its multiplicity and in order, and no empty one |
| AppDataStore.FindAllByPipeline | backbone.opensocial.appdatastore.js:182-198 | on success the records come from the snapshot in index order and the flag is set. Otherwise it throws and the flag stays unset |
| AppDataStore.FindAll | backbone.opensocial.appdatastore.js:114-143 | when pipelined, `findAll` is served from the snapshot with no request. Otherwise it issues one `get` of every record key and delivers the parsed records in index order, or the error or exception |
| Sync.DefaultOptions | backbone.opensocial.appdatastore.js:200-205 | supplied callbacks are kept and missing ones become no-ops |
| Sync.Normalise | backbone.opensocial.appdatastore.js:213-219 | a legacy `(success, error)` pair becomes `{success, error}`; an options object passes through |
| Sync.ResolveStore | backbone.opensocial.appdatastore.js:221 | the model's own adapter wins, then the collection's. Having neither an adapter nor a collection is a TypeError |
| Sync.CallFor | backbone.opensocial.appdatastore.js:224-229 | `read` goes to find if the model has an id and to findAll otherwise; create, update and delete go to create, update and destroy |
| Sync.Sync | backbone.opensocial.appdatastore.js:211-231 | a known verb with a resolvable adapter invokes the verb's call with normalised options. An unknown verb does nothing; a missing adapter is a TypeError |
| Sync.OwnStoreFirst | backbone.opensocial.appdatastore.js:221 | a model's own adapter receives the call even when its collection has one |
| Sync.LegacyCallbacksAreNormalised | backbone.opensocial.appdatastore.js:213-219 | legacy callbacks dispatch exactly as the equivalent options object |
| Consistency.GeneratedIdIsWellFormed | backbone.opensocial.appdatastore.js:58 | a generated id is non-empty and comma-free, so the index carries it faithfully |
| Consistency.OpenWithoutIndexIsConsistent | backbone.opensocial.appdatastore.js:17-19 | opening a store with no index gives an empty adapter consistent with the backend |
| Consistency.UpdateModelPreservesConsistency | backbone.opensocial.appdatastore.js:54-78 | with a working transport, a save keeps the index equal to the joined ids and every listed id backed by a parseable record |
| Consistency.DestroyPreservesConsistency | backbone.opensocial.appdatastore.js:146-166 | with a working transport, destroy keeps the index and the records in step |
| Consistency.FindAllWhenConsistent | backbone.opensocial.appdatastore.js:127-138 | on a consistent backend, a transport `findAll` succeeds with one record per listed id |
| Consistency.ReopenRestoresIds | backbone.opensocial.appdatastore.js:11-20 | reopening a consistent store with well-formed ids restores exactly its ids, the empty list included |
| Consistency.UpdateModelKeepsIdsWellFormed | backbone.opensocial.appdatastore.js:58-77 | saving a model with a well-formed id, or with none, keeps every listed id well-formed |
| Consistency.FindAfterUpdateModel | backbone.opensocial.appdatastore.js:62-65 | after a successful save, `find` by the model's id delivers the saved attributes |
| Consistency.FindAfterDestroy | backbone.opensocial.appdatastore.js:150-152 | after a successful destroy, `find` by that id reports "Model not found." |
| Consistency.SaveAgainLeavesIdsAlone | backbone.opensocial.appdatastore.js:58-77 | saving the same model again keeps its id and the adapter unchanged, and writes only the record |
| Consistency.PipelineIsOneShot | backbone.opensocial.appdatastore.js:122-125 | a `findAll` served from the snapshot sends nothing. Every later `findAll` goes to the transport, whatever the snapshot then holds |
| Consistency.FailedSaveLeavesDanglingId | backbone.opensocial.appdatastore.js:65-77 | a save the transport rejects still lists the new id in memory with no record behind it, and delivers the error text |
| Findings.ReopenAfterLastDestroy | backbone.opensocial.appdatastore.js:17 | after the last record is destroyed and the store reopened, the code as written lists [""] and `findAll` throws. The corrected reading lists [] and `findAll` delivers [] |

## Left out

- `Math.random` and the floating-point arithmetic in `S4`. Each `S4` call takes its integer draw `n` in `[0, 0x10000)` as a parameter, and `(1 + r) * 0x10000 | 0` is taken to be `0x10000 + n`.
- `JSON.stringify` and `JSON.parse`. The record codec is an abstract pair of functions, and lemmas that need a round trip require `Records.RoundTrips`. A parse that would throw (a missing or malformed value) is the outcome `Thrown`. JSON numbers are integers.
- Asynchrony. The fake's `execute` calls back at once, so each operation is one transition. In that transition the record write comes first and the index write second, as the synchronous fake runs them. Interleavings of concurrent operations are not modelled.
- `console.log`. A failed index write or a failed construction fetch is only logged. The model drops the log line; the backend is simply left unchanged.
- The `escapeType` request option. The fake ignores it.
- Probing the `opensocial.data` globals. The pipeline datasets are an `Option<Snapshot>`. A missing `opensocial`, `opensocial.data`, `viewer` dataset or `appdata` dataset all become `None`. A snapshot with no entry for the viewer throws.
- Mutating the global `Backbone.sync` and invoking callbacks. The dispatch is a value naming the call and options. Adapter results are outcome values, not callback invocations.
- Loose equality between numeric and string ids. All ids are strings.
- The fake's `_userId` is the number 2002. The model fixes it as the string key "2002", which is what JavaScript makes of it as an object key. Other user ids are not modelled; in particular a user id `"error"` would make a successful `get` reply look like an error reply to the adapter.
- Numerals.Decimal: error codes are taken to be integers of magnitude below 10^21, which JavaScript writes as plain decimal digits. Larger codes, which JavaScript writes in exponent form (`"" + 1e21` is "1e+21"), and codes above 2^53, which a JavaScript number cannot hold exactly, are not modelled.
- AppDataStore.Find: takes the model's id string. A direct `find` on a model without an id would look up `name + "-undefined"`; that case is not modelled.
- AppDataStore.Destroy: requires the model to carry an id. Without one the source issues the delete for `name + "-undefined"` and then throws in `model.id.toString()`.
- AppDataStore.Open: reads the index the corrected way (see Findings). `OpenAsWritten` keeps the code's reading.
- The two test files are not modelled: they describe the expected behaviour, which the rows above restate.

## Findings

The code itself points to the intended reading. The fallback at line 19 reads
"assume no records exist" as `ids = []`, and the pipeline path at lines 191-192
reads "" as `[]` and removes any empty-string id. The constructor at line 17
instead reads the empty index value as `[""]`.

| source | as written | input that shows it | evidently intended | confidence | as-written member | corrected member |
|---|---|---|---|---|---|---|
| backbone.opensocial.appdatastore.js:17 | a present index value is split on commas, so the empty index "" is read as the single id "" | destroy the only record of a store, which writes the index as ""; then reopen the store and call `findAll`: it asks for the missing key `name + "-"` and `JSON.parse(undefined)` throws | read "" as no ids, by dropping empty fragments as `findAllByPipeline` does at lines 191-192 | high; not executed | AppDataStore.OpenAsWritten (exhibited by Findings.ReopenAfterLastDestroy) | AppDataStore.Open (proved by Consistency.ReopenRestoresIds and Index.DecodeEncode) |
