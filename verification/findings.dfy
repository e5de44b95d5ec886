/**
 * The empty index, read as written. `updateIds` stores an empty id list as "",
 * and the constructor splits any present value on commas, so "" comes back as
 * one empty id. The next transport `findAll` then asks for the record key
 * `name + "-"`, which does not exist, and parsing its missing value throws.
 */
module Findings {
  import opened Wrappers
  import opened FakeAppData
  import opened Records
  import Index
  import opened Replies
  import opened AppDataStore

  /**
   * Destroying the last listed record and reopening the store: as written the
   * reopened adapter lists [""] and its first `findAll` throws; with the empty
   * index read as no ids it lists nothing and `findAll` delivers [].
   */
  lemma ReopenAfterLastDestroy(codec: Codec, s: Store, b: Backend, m: Model)
    requires m.id.Some? && s.ids == [m.id.value]
    requires b.error.None?
    requires RecordKey(s.name, "") !in b.appdata
    ensures
      var after := Destroy(s, b, m).backend;
      && after.appdata[s.name] == ""
      && OpenAsWritten(s.name, after).store.ids == [""]
      && FindAll(codec, OpenAsWritten(s.name, after).store, after, None).outcome == Thrown
      && Open(s.name, after).store.ids == []
      && FindAll(codec, Open(s.name, after).store, after, None).outcome == Success([])
  {
    var r := Destroy(s, b, m);
    var after := r.backend;
    assert r.store.ids == [];
    assert after.appdata[s.name] == Index.Encode([]) == "";
    Index.EmptyIndexAsWritten();
    var reopened := OpenAsWritten(s.name, after).store;
    assert reopened.ids == [""];
    assert RecordKey(s.name, "") !in after.appdata;
    assert !(RecordKey(s.name, reopened.ids[0]) in after.appdata);
  }
}
