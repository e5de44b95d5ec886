/**
 * End-to-end properties of the adapter over the fake backend: the index and
 * the records stay in step across creates, updates and destroys while the
 * transport works; a reopened adapter reads its ids back; `find` sees what was
 * written; the pipeline serves at most one `findAll`; and what happens when a
 * request fails.
 */
module Consistency {
  import opened Wrappers
  import opened Util
  import opened FakeAppData
  import opened Records
  import Index
  import opened Replies
  import opened AppDataStore

  /**
   * The backend agrees with the adapter: the index holds the joined ids (or is
   * absent while there are none) and every listed id has a parseable record.
   */
  ghost predicate Consistent(codec: Codec, s: Store, b: Backend) {
    && (s.name in b.appdata ==> b.appdata[s.name] == Index.Encode(s.ids))
    && (s.name !in b.appdata ==> s.ids == [])
    && forall id :: id in s.ids ==>
         RecordKey(s.name, id) in b.appdata && codec.decode(b.appdata[RecordKey(s.name, id)]).Some?
  }

  ghost predicate WellFormedIds(ids: seq<string>) {
    forall i :: 0 <= i < |ids| ==> Index.WellFormedId(ids[i])
  }

  /** A generated id is non-empty and comma-free, so the index can carry it. */
  lemma GeneratedIdIsWellFormed(draws: seq<Draw>)
    requires |draws| == 8
    ensures Index.WellFormedId(Guid(draws))
  {
  }

  /** Opening a store whose index is absent gives a consistent, empty adapter. */
  lemma OpenWithoutIndexIsConsistent(codec: Codec, name: string, b: Backend)
    requires name !in b.appdata
    ensures Open(name, b).store.ids == []
    ensures Consistent(codec, Open(name, b).store, b)
  {
  }

  /** Creating or updating a model keeps the index and the records in step. */
  lemma UpdateModelPreservesConsistency(codec: Codec, s: Store, b: Backend, m: Model, draws: seq<Draw>)
    requires |draws| == 8
    requires RoundTrips(codec) && b.error.None?
    requires Consistent(codec, s, b)
    ensures Consistent(codec, UpdateModel(codec, s, b, m, draws).step.store, UpdateModel(codec, s, b, m, draws).step.backend)
  {
    var r := UpdateModel(codec, s, b, m, draws);
    var id := r.model.id.value;
    var s', b' := r.step.store, r.step.backend;
    var key := RecordKey(s.name, id);
    assert codec.decode(b'.appdata[key]) == Some(r.model.attributes);
    forall other | other in s'.ids
      ensures RecordKey(s.name, other) in b'.appdata && codec.decode(b'.appdata[RecordKey(s.name, other)]).Some?
    {
      if other != id {
        RecordKeyInjective(s.name, other, id);
        assert other in s.ids;
      }
    }
  }

  /** Destroying a model keeps the index and the records in step. */
  lemma DestroyPreservesConsistency(codec: Codec, s: Store, b: Backend, m: Model)
    requires m.id.Some? && b.error.None?
    requires Consistent(codec, s, b)
    ensures Consistent(codec, Destroy(s, b, m).store, Destroy(s, b, m).backend)
  {
    var r := Destroy(s, b, m);
    var id := m.id.value;
    forall other | other in r.store.ids
      ensures RecordKey(s.name, other) in r.backend.appdata && codec.decode(r.backend.appdata[RecordKey(s.name, other)]).Some?
    {
      assert other != id;
      RecordKeyInjective(s.name, other, id);
      assert other in multiset(r.store.ids);
      assert other in s.ids;
    }
  }

  /** On a consistent backend a transport `findAll` delivers one parsed record per listed id, in index order. */
  lemma FindAllWhenConsistent(codec: Codec, s: Store, b: Backend, snapshot: Option<Snapshot>)
    requires b.error.None? && Consistent(codec, s, b)
    requires IsPipelined(s, snapshot) == Some(false)
    ensures FindAll(codec, s, b, snapshot).outcome.Success?
    ensures |FindAll(codec, s, b, snapshot).outcome.value| == |s.ids|
  {
    forall i | 0 <= i < |s.ids|
      ensures RecordKey(s.name, s.ids[i]) in b.appdata && codec.decode(b.appdata[RecordKey(s.name, s.ids[i])]).Some?
    {
      assert s.ids[i] in s.ids;
    }
  }

  /** A reopened adapter reads back the ids of a consistent backend, the empty list included. */
  lemma ReopenRestoresIds(codec: Codec, s: Store, b: Backend)
    requires b.error.None? && Consistent(codec, s, b) && WellFormedIds(s.ids)
    ensures Open(s.name, b).store.ids == s.ids
  {
    if s.name in b.appdata {
      Index.DecodeEncode(s.ids);
    }
  }

  /** Well-formed ids stay well-formed when a model with a well-formed id (or none) is saved. */
  lemma UpdateModelKeepsIdsWellFormed(codec: Codec, s: Store, b: Backend, m: Model, draws: seq<Draw>)
    requires |draws| == 8
    requires WellFormedIds(s.ids)
    requires HasId(m) ==> Index.WellFormedId(m.id.value)
    ensures WellFormedIds(UpdateModel(codec, s, b, m, draws).step.store.ids)
  {
    var r := UpdateModel(codec, s, b, m, draws);
    if !HasId(m) {
      GeneratedIdIsWellFormed(draws);
    }
    assert Index.WellFormedId(r.model.id.value);
  }

  /** After a successful save, `find` by the model's id delivers the saved attributes. */
  lemma FindAfterUpdateModel(codec: Codec, s: Store, b: Backend, m: Model, draws: seq<Draw>)
    requires |draws| == 8
    requires RoundTrips(codec) && b.error.None?
    ensures
      var r := UpdateModel(codec, s, b, m, draws);
      Find(codec, r.step.store, r.step.backend, r.model.id.value).outcome == Success(r.model.attributes)
  {
    var r := UpdateModel(codec, s, b, m, draws);
    assert codec.decode(codec.encode(r.model.attributes)) == Some(r.model.attributes);
  }

  /** After a successful destroy, `find` by the same id reports that the model is not found. */
  lemma FindAfterDestroy(codec: Codec, s: Store, b: Backend, m: Model)
    requires m.id.Some? && b.error.None?
    ensures
      var r := Destroy(s, b, m);
      Find(codec, r.store, r.backend, m.id.value).outcome == Failure(ModelNotFound)
  {
  }

  /** Saving an already-listed model again changes neither the ids nor the index: only the record is written. */
  lemma SaveAgainLeavesIdsAlone(codec: Codec, s: Store, b: Backend, m: Model, draws: seq<Draw>, again: seq<Draw>)
    requires |draws| == 8 && |again| == 8
    ensures
      var first := UpdateModel(codec, s, b, m, draws);
      var second := UpdateModel(codec, first.step.store, first.step.backend, first.model, again);
      && second.model == first.model
      && second.step.store == first.step.store
      && |second.step.sent| == 1
  {
  }

  /** A `findAll` served from the snapshot issues no request and leaves the next `findAll` to the transport. */
  lemma PipelineIsOneShot(codec: Codec, s: Store, b: Backend, snapshot: Option<Snapshot>, b2: Backend, later: Option<Snapshot>)
    requires IsPipelined(s, snapshot) == Some(true)
    requires FindAll(codec, s, b, snapshot).outcome.Success?
    ensures FindAll(codec, s, b, snapshot).sent == []
    ensures
      var s1 := FindAll(codec, s, b, snapshot).store;
      && IsPipelined(s1, later) == Some(false)
      && FindAll(codec, s1, b2, later).sent == [GetRequest(RecordKeys(s.name, s.ids))]
  {
  }

  /**
   * A save that the transport rejects still lists a new id in memory, while no
   * record exists for it: the index and the records diverge.
   */
  lemma FailedSaveLeavesDanglingId(codec: Codec, s: Store, b: Backend, m: Model, draws: seq<Draw>)
    requires |draws| == 8 && b.error.Some?
    requires !HasId(m) && RecordKey(s.name, Guid(draws)) !in b.appdata
    ensures
      var r := UpdateModel(codec, s, b, m, draws);
      && Guid(draws) in r.step.store.ids
      && RecordKey(s.name, Guid(draws)) !in r.step.backend.appdata
      && r.step.outcome == Failure(ErrorText(b.error.value, Updating))
  {
  }
}
