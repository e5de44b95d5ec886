/**
 * The `AppDataStore` persistence adapter: a named collection of records kept
 * in one user's flat key/value store, with an index under the store's name
 * listing the member ids and each record under `name + "-" + id`. Each
 * operation is one synchronous transition over the adapter and the backend.
 */
module AppDataStore {
  import opened Wrappers
  import opened Text
  import opened Util
  import opened FakeAppData
  import opened Records
  import Index
  import opened Replies

  /** An adapter instance: its name, its in-memory id list and the one-shot pipeline flag. */
  datatype Store = Store(name: string, ids: seq<string>, previouslyFetchedFromPipeline: bool)

  /** The adapter and backend after an operation, the requests it issued in order, and what it delivered. */
  datatype Step<T> = Step(store: Store, backend: Backend, sent: seq<Request>, outcome: Outcome<T>)

  // ----- Construction: the index fetch -----

  /** The index value in a reply to `get({fields: [name]})`, when the reply is a single user's data holding it. */
  function IndexValue(reply: Reply<UserData>, name: string): (v: Option<string>)
    ensures reply.ErrorReply? ==> v.None?
    ensures reply.Result? && |reply.body| != 1 ==> v.None?
    ensures reply.Result? && |reply.body| == 1 ==>
      forall data :: data in reply.body.Values ==> (v.Some? <==> name in data) && (v.Some? ==> v.value == data[name])
  {
    match Classify(reply)
    case Found(data) => if name in data then Some(data[name]) else None
    case _ => None
  }

  /** The constructor's callback as written: a present value is split on commas, anything else gives []. */
  function IdsFromReplyAsWritten(reply: Reply<UserData>, name: string): (ids: seq<string>)
    ensures IndexValue(reply, name).None? ==> ids == []
    ensures IndexValue(reply, name).Some? ==> ids == Split(IndexValue(reply, name).value, Index.Separator)
  {
    match IndexValue(reply, name)
    case Some(data) => Index.DecodeAsWritten(data)
    case None => []
  }

  /** The constructor's callback, reading a present value the way the pipeline path does. */
  function IdsFromReply(reply: Reply<UserData>, name: string): (ids: seq<string>)
    ensures reply.ErrorReply? ==> ids == []
    ensures reply.Result? && |reply.body| != 1 ==> ids == []
    ensures reply.Result? && |reply.body| == 1 ==>
      forall data :: data in reply.body.Values ==>
        ids == if name in data then Index.Decode(data[name]) else []
    ensures forall i :: 0 <= i < |ids| ==> Index.WellFormedId(ids[i])
  {
    match IndexValue(reply, name)
    case Some(data) => Index.Decode(data)
    case None => []
  }

  /** A newly constructed adapter and the requests its constructor issued. */
  datatype Opened = Opened(store: Store, sent: seq<Request>)

  /** `new AppDataStore(name)` as written, against the fake backend. */
  function OpenAsWritten(name: string, b: Backend): (o: Opened)
    ensures o.sent == [GetRequest([name])]
    ensures o.store.name == name && !o.store.previouslyFetchedFromPipeline
    ensures b.error.Some? || name !in b.appdata ==> o.store.ids == []
    ensures b.error.None? && name in b.appdata ==> o.store.ids == Split(b.appdata[name], Index.Separator)
  {
    var x := Get(b, [name]);
    FakeGetIsFound(b, [name]);
    Opened(Store(name, IdsFromReplyAsWritten(x.reply, name), false), [GetRequest([name])])
  }

  /** `new AppDataStore(name)` against the fake backend, with the empty index read as no ids. */
  function Open(name: string, b: Backend): (o: Opened)
    ensures o.sent == [GetRequest([name])]
    ensures o.store.name == name && !o.store.previouslyFetchedFromPipeline
    ensures b.error.Some? || name !in b.appdata ==> o.store.ids == []
    ensures b.error.None? && name in b.appdata ==> o.store.ids == Index.Decode(b.appdata[name])
  {
    var x := Get(b, [name]);
    FakeGetIsFound(b, [name]);
    Opened(Store(name, IdsFromReply(x.reply, name), false), [GetRequest([name])])
  }

  // ----- Writes -----

  /** The request `updateIds` issues. */
  function IndexWrite(s: Store): Request {
    UpdateRequest(map[s.name := Index.Encode(s.ids)])
  }

  /** `updateIds()`: the joined ids written under the store's name; a failure is only logged. */
  function UpdateIds(s: Store, b: Backend): (x: Exchange<KeyValues>)
    ensures b.error.Some? ==> x.backend == b
    ensures b.error.None? ==> x.backend == b.(appdata := b.appdata[s.name := Index.Encode(s.ids)])
  {
    var x := FakeAppData.Update(b, map[s.name := Index.Encode(s.ids)]);
    assert b.error.None? ==> x.backend.appdata == b.appdata[s.name := Index.Encode(s.ids)];
    x
  }

  /** The outcome of an update or delete request: the reply on success, the error text otherwise. */
  function WriteOutcome<T>(reply: Reply<KeyValues>, action: string, onSuccess: T): (o: Outcome<T>)
    ensures reply.ErrorReply? ==> o == Failure(ErrorText(reply.error, action))
    ensures reply.Result? ==> o == Success(onSuccess)
  {
    match reply
    case ErrorReply(e) => Failure(ErrorText(e, action))
    case Result(_) => Success(onSuccess)
  }

  /** The result of `updateModel`: the model with its id, and the step. */
  datatype Saved = Saved(model: Model, step: Step<KeyValues>)

  /**
   * `updateModel(model)`: give the model an id if it has none, write its
   * record, and append its id to the index when the id is new there.
   * `draws` are the eight draws a fresh pseudo-GUID would consume.
   */
  function UpdateModel(codec: Codec, s: Store, b: Backend, m: Model, draws: seq<Draw>): (r: Saved)
    requires |draws| == 8
    ensures r.model == AssignId(m, draws)
    ensures r.step.store.name == s.name
    ensures r.step.store.previouslyFetchedFromPipeline == s.previouslyFetchedFromPipeline
    ensures r.model.id.value in r.step.store.ids
    ensures r.step.store.ids == Index.AppendIfAbsent(s.ids, r.model.id.value)
    ensures |r.step.sent| >= 1
    ensures r.step.sent[0] == UpdateRequest(map[RecordKey(s.name, r.model.id.value) := codec.encode(r.model.attributes)])
    ensures r.model.id.value in s.ids ==> |r.step.sent| == 1
    ensures r.model.id.value !in s.ids ==> r.step.sent == [r.step.sent[0], IndexWrite(r.step.store)]
    ensures b.error.Some? ==> r.step.backend == b
    ensures b.error.Some? ==> r.step.outcome == Failure(ErrorText(b.error.value, Updating))
    ensures b.error.None? ==> r.step.outcome == Success(map[])
    ensures b.error.None? ==> r.step.backend.error == b.error
    ensures b.error.None? ==>
      var key := RecordKey(s.name, r.model.id.value);
      key in r.step.backend.appdata && r.step.backend.appdata[key] == codec.encode(r.model.attributes)
    ensures b.error.None? && r.model.id.value !in s.ids ==>
      s.name in r.step.backend.appdata && r.step.backend.appdata[s.name] == Index.Encode(r.step.store.ids)
    ensures b.error.None? ==>
      forall k :: k != RecordKey(s.name, r.model.id.value) && (k != s.name || r.model.id.value in s.ids) ==>
        (k in r.step.backend.appdata <==> k in b.appdata) &&
        (k in b.appdata ==> r.step.backend.appdata[k] == b.appdata[k])
  {
    var model := AssignId(m, draws);
    var id := model.id.value;
    var record := map[RecordKey(s.name, id) := codec.encode(model.attributes)];
    var written := FakeAppData.Update(b, record);
    var outcome := WriteOutcome(written.reply, Updating, map[]);
    if id in s.ids then
      Saved(model, Step(s, written.backend, [UpdateRequest(record)], outcome))
    else
      var s' := s.(ids := s.ids + [id]);
      Saved(model, Step(s', UpdateIds(s', written.backend).backend, [UpdateRequest(record), IndexWrite(s')], outcome))
  }

  /** `create(model)`: the same operation as `updateModel`. */
  function Create(codec: Codec, s: Store, b: Backend, m: Model, draws: seq<Draw>): Saved
    requires |draws| == 8
  {
    UpdateModel(codec, s, b, m, draws)
  }

  /** `update(model)`: the same operation as `updateModel`. */
  function Update(codec: Codec, s: Store, b: Backend, m: Model, draws: seq<Draw>): Saved
    requires |draws| == 8
  {
    UpdateModel(codec, s, b, m, draws)
  }

  /**
   * `destroy(model)`: delete the record and, when the id is listed, drop every
   * copy of it from the index. On success the model itself is delivered.
   */
  function Destroy(s: Store, b: Backend, m: Model): (r: Step<Model>)
    requires m.id.Some?
    ensures r.store.name == s.name
    ensures r.store.previouslyFetchedFromPipeline == s.previouslyFetchedFromPipeline
    ensures r.store.ids == Index.Remove(s.ids, m.id.value)
    ensures m.id.value !in r.store.ids
    ensures m.id.value !in s.ids ==> r.store == s && r.sent == [DeleteRequest([RecordKey(s.name, m.id.value)])]
    ensures m.id.value in s.ids ==> r.sent == [DeleteRequest([RecordKey(s.name, m.id.value)]), IndexWrite(r.store)]
    ensures b.error.Some? ==> r.backend == b
    ensures b.error.Some? ==> r.outcome == Failure(ErrorText(b.error.value, Destroying))
    ensures b.error.None? ==> r.outcome == Success(m)
    ensures b.error.None? ==> r.backend.error == b.error
    ensures b.error.None? ==> RecordKey(s.name, m.id.value) !in r.backend.appdata
    ensures b.error.None? && m.id.value in s.ids ==>
      s.name in r.backend.appdata && r.backend.appdata[s.name] == Index.Encode(r.store.ids)
    ensures b.error.None? ==>
      forall k :: k != RecordKey(s.name, m.id.value) && (k != s.name || m.id.value !in s.ids) ==>
        (k in r.backend.appdata <==> k in b.appdata) &&
        (k in b.appdata ==> r.backend.appdata[k] == b.appdata[k])
  {
    var id := m.id.value;
    var key := RecordKey(s.name, id);
    var deleted := Delete(b, [key]);
    var outcome := WriteOutcome(deleted.reply, Destroying, m);
    if id in s.ids then
      var s' := s.(ids := Index.Remove(s.ids, id));
      Step(s', UpdateIds(s', deleted.backend).backend, [DeleteRequest([key]), IndexWrite(s')], outcome)
    else
      Step(s, deleted.backend, [DeleteRequest([key])], outcome)
  }

  // ----- Reads -----

  /** `JSON.parse` of the value under each key in turn; None if any is missing or malformed (the parse throws). */
  function DecodeAll(codec: Codec, data: KeyValues, keys: seq<string>): (r: Option<seq<Attributes>>)
    ensures r.Some? <==> forall i :: 0 <= i < |keys| ==> keys[i] in data && codec.decode(data[keys[i]]).Some?
    ensures r.Some? ==> |r.value| == |keys|
    ensures r.Some? ==> forall i :: 0 <= i < |keys| ==> codec.decode(data[keys[i]]) == Some(r.value[i])
    decreases |keys|
  {
    if |keys| == 0 then Some([])
    else if keys[0] !in data then None
    else match codec.decode(data[keys[0]])
      case None => None
      case Some(first) =>
        match DecodeAll(codec, data, keys[1..])
        case None =>
          assert exists i :: 0 <= i < |keys| - 1 && !(keys[1..][i] in data && codec.decode(data[keys[1..][i]]).Some?);
          None
        case Some(rest) => Some([first] + rest)
  }

  /** How `find` reads the reply to its `get`. */
  function FindReply(codec: Codec, reply: Reply<UserData>, key: string): (o: Outcome<Attributes>)
    ensures reply.ErrorReply? ==> o == Failure(ErrorText(reply.error, Retrieving))
    ensures reply.Result? && |reply.body| != 1 ==> o == Failure(ModelNotFound)
    ensures reply.Result? && |reply.body| == 1 ==>
      forall data :: data in reply.body.Values ==>
        && (key !in data ==> o == Failure(ModelNotFound))
        && (key in data && codec.decode(data[key]).None? ==> o == Thrown)
        && (key in data && codec.decode(data[key]).Some? ==> o == Success(codec.decode(data[key]).value))
  {
    match Classify(reply)
    case Failed(e) => Failure(ErrorText(e, Retrieving))
    case Malformed => Failure(ModelNotFound)
    case Found(data) =>
      if key !in data then Failure(ModelNotFound)
      else match codec.decode(data[key])
        case Some(a) => Success(a)
        case None => Thrown
  }

  /** `find(model)`: fetch the model's record key and parse it. */
  function Find(codec: Codec, s: Store, b: Backend, id: string): (r: Step<Attributes>)
    ensures r.store == s && r.backend == b
    ensures r.sent == [GetRequest([RecordKey(s.name, id)])]
    ensures b.error.Some? ==> r.outcome == Failure(ErrorText(b.error.value, Retrieving))
    ensures b.error.None? && RecordKey(s.name, id) !in b.appdata ==> r.outcome == Failure(ModelNotFound)
    ensures b.error.None? && RecordKey(s.name, id) in b.appdata ==>
      match codec.decode(b.appdata[RecordKey(s.name, id)])
      case Some(a) => r.outcome == Success(a)
      case None => r.outcome == Thrown
  {
    var key := RecordKey(s.name, id);
    var x := Get(b, [key]);
    FakeGetIsFound(b, [key]);
    Step(s, b, [GetRequest([key])], FindReply(codec, x.reply, key))
  }

  /** How `findAll` reads the reply to its `get`. */
  function FindAllReply(codec: Codec, reply: Reply<UserData>, keys: seq<string>): (o: Outcome<seq<Attributes>>)
    ensures reply.ErrorReply? ==> o == Failure(ErrorText(reply.error, Retrieving))
    ensures reply.Result? && |reply.body| != 1 ==> o == Failure(ModelsNotFound)
    ensures reply.Result? && |reply.body| == 1 ==>
      forall data :: data in reply.body.Values ==>
        && (DecodeAll(codec, data, keys).None? ==> o == Thrown)
        && (DecodeAll(codec, data, keys).Some? ==> o == Success(DecodeAll(codec, data, keys).value))
  {
    match Classify(reply)
    case Failed(e) => Failure(ErrorText(e, Retrieving))
    case Malformed => Failure(ModelsNotFound)
    case Found(data) =>
      match DecodeAll(codec, data, keys)
      case Some(objects) => Success(objects)
      case None => Thrown
  }

  /** Decoding the keys from the fake's selection for those keys is decoding them from the whole store. */
  lemma DecodeAllSelected(codec: Codec, appdata: KeyValues, keys: seq<string>)
    ensures DecodeAll(codec, Selected(appdata, keys), keys) == DecodeAll(codec, appdata, keys)
  {
    var data := Selected(appdata, keys);
    assert forall i :: 0 <= i < |keys| && keys[i] in appdata ==> keys[i] in data && data[keys[i]] == appdata[keys[i]];
    var l, r := DecodeAll(codec, data, keys), DecodeAll(codec, appdata, keys);
    if l.Some? && r.Some? {
      assert l.value == r.value by {
        forall i | 0 <= i < |keys|
          ensures l.value[i] == r.value[i]
        {
          assert codec.decode(data[keys[i]]) == Some(l.value[i]);
        }
      }
    }
  }

  // ----- The pipeline snapshot -----

  /** The pipelined datasets when both `viewer` and `appdata` are available: the viewer's id and every user's key/value pairs. */
  datatype Snapshot = Snapshot(viewerId: string, appdata: map<string, KeyValues>)

  /**
   * `isPipelined()`: whether `findAll` may be served from the snapshot. None is
   * the TypeError raised when the snapshot has no entry for the viewer.
   */
  function IsPipelined(s: Store, snapshot: Option<Snapshot>): (r: Option<bool>)
    ensures s.previouslyFetchedFromPipeline || snapshot.None? ==> r == Some(false)
    ensures r == Some(true) <==>
      && !s.previouslyFetchedFromPipeline
      && snapshot.Some?
      && snapshot.value.viewerId in snapshot.value.appdata
      && s.name in snapshot.value.appdata[snapshot.value.viewerId]
    ensures r.None? <==>
      !s.previouslyFetchedFromPipeline && snapshot.Some? && snapshot.value.viewerId !in snapshot.value.appdata
  {
    if s.previouslyFetchedFromPipeline then Some(false)
    else match snapshot
      case None => Some(false)
      case Some(snap) =>
        if snap.viewerId !in snap.appdata then None
        else Some(s.name in snap.appdata[snap.viewerId])
  }

  /** The ids the pipelined index lists, empty fragments dropped; none when the index is absent. */
  function PipelinedIds(name: string, data: KeyValues): (ids: seq<string>)
    ensures name !in data ==> ids == []
    ensures forall i :: 0 <= i < |ids| ==> Index.WellFormedId(ids[i])
    ensures name in data ==> SubsequenceOf(ids, Split(data[name], Index.Separator))
    ensures name in data ==> multiset(ids) == multiset(Split(data[name], Index.Separator))["" := 0]
  {
    if name in data then Index.Decode(data[name]) else []
  }

  /** An adapter together with what an operation on it delivered, for operations that issue no request. */
  datatype Served<T> = Served(store: Store, outcome: Outcome<T>)

  /**
   * `findAllByPipeline()`: the records the pipelined index lists, in index
   * order, read from the snapshot; marks the pipeline as used. A missing
   * snapshot, viewer entry or record throws and leaves the flag unset.
   */
  function FindAllByPipeline(codec: Codec, s: Store, snapshot: Option<Snapshot>): (r: Served<seq<Attributes>>)
    ensures r.outcome.Success? ==> r.store == s.(previouslyFetchedFromPipeline := true)
    ensures !r.outcome.Success? ==> r.store == s && r.outcome == Thrown
    ensures snapshot.None? || snapshot.value.viewerId !in snapshot.value.appdata ==> r.outcome == Thrown
    ensures snapshot.Some? && snapshot.value.viewerId in snapshot.value.appdata ==>
      var data := snapshot.value.appdata[snapshot.value.viewerId];
      var ids := PipelinedIds(s.name, data);
      && (r.outcome.Success? <==>
            forall i :: 0 <= i < |ids| ==> RecordKey(s.name, ids[i]) in data && codec.decode(data[RecordKey(s.name, ids[i])]).Some?)
      && (r.outcome.Success? ==>
            && |r.outcome.value| == |ids|
            && forall i :: 0 <= i < |ids| ==> codec.decode(data[RecordKey(s.name, ids[i])]) == Some(r.outcome.value[i]))
  {
    match snapshot
    case None => Served(s, Thrown)
    case Some(snap) =>
      if snap.viewerId !in snap.appdata then Served(s, Thrown)
      else
        var data := snap.appdata[snap.viewerId];
        var ids := PipelinedIds(s.name, data);
        match DecodeAll(codec, data, RecordKeys(s.name, ids))
        case None => Served(s, Thrown)
        case Some(objects) => Served(s.(previouslyFetchedFromPipeline := true), Success(objects))
  }

  /**
   * `findAll()`: served once from the snapshot when it is usable, otherwise
   * one `get` of every listed record key, parsed in index order.
   */
  function FindAll(codec: Codec, s: Store, b: Backend, snapshot: Option<Snapshot>): (r: Step<seq<Attributes>>)
    ensures r.backend == b
    ensures IsPipelined(s, snapshot) != Some(false) ==> r.sent == []
    ensures IsPipelined(s, snapshot).None? ==> r.store == s && r.outcome == Thrown
    ensures IsPipelined(s, snapshot) == Some(true) ==>
      Served(r.store, r.outcome) == FindAllByPipeline(codec, s, snapshot)
    ensures IsPipelined(s, snapshot) == Some(false) ==>
      r.store == s && r.sent == [GetRequest(RecordKeys(s.name, s.ids))]
    ensures IsPipelined(s, snapshot) == Some(false) && b.error.Some? ==>
      r.outcome == Failure(ErrorText(b.error.value, Retrieving))
    ensures IsPipelined(s, snapshot) == Some(false) && b.error.None? ==>
      && (r.outcome.Success? <==>
            forall i :: 0 <= i < |s.ids| ==>
              RecordKey(s.name, s.ids[i]) in b.appdata && codec.decode(b.appdata[RecordKey(s.name, s.ids[i])]).Some?)
      && (r.outcome.Success? ==>
            && |r.outcome.value| == |s.ids|
            && forall i :: 0 <= i < |s.ids| ==>
                 codec.decode(b.appdata[RecordKey(s.name, s.ids[i])]) == Some(r.outcome.value[i]))
      && (!r.outcome.Success? ==> r.outcome == Thrown)
  {
    var keys := RecordKeys(s.name, s.ids);
    match IsPipelined(s, snapshot)
    case None => Step(s, b, [], Thrown)
    case Some(true) =>
      var served := FindAllByPipeline(codec, s, snapshot);
      Step(served.store, b, [], served.outcome)
    case Some(false) =>
      var x := Get(b, keys);
      FakeGetIsFound(b, keys);
      DecodeAllSelected(codec, b.appdata, keys);
      Step(s, b, [GetRequest(keys)], FindAllReply(codec, x.reply, keys))
  }
}
