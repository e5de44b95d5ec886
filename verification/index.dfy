/**
 * The index value stored under the store's own name: the member ids joined
 * by commas, without escaping.
 */
module Index {
  import opened Text

  const Separator: char := ','

  /** An id the index can carry faithfully: non-empty and free of commas. */
  predicate WellFormedId(id: string) {
    id != "" && Separator !in id
  }

  /** `ids.join(",")`, the value `updateIds` writes. */
  function Encode(ids: seq<string>): (r: string)
    ensures ids == [] ==> r == ""
    ensures |ids| >= 1 && (forall i :: 0 <= i < |ids| ==> Separator !in ids[i]) ==> Split(r, Separator) == ids
  {
    if |ids| >= 1 && forall i :: 0 <= i < |ids| ==> Separator !in ids[i] then
      SplitJoin(ids, Separator);
      Join(ids, Separator)
    else
      Join(ids, Separator)
  }

  /** `data.split(",")`, the constructor's reading of a present index value. */
  function DecodeAsWritten(data: string): (ids: seq<string>)
    ensures |ids| >= 1
  {
    Split(data, Separator)
  }

  /**
   * The pipeline's reading of an index value: split on commas and drop the
   * empty fragments, so that "" reads as no ids at all.
   */
  function Decode(data: string): (ids: seq<string>)
    ensures forall i :: 0 <= i < |ids| ==> WellFormedId(ids[i])
    ensures SubsequenceOf(ids, Split(data, Separator))
    ensures multiset(ids) == multiset(Split(data, Separator))["" := 0]
  {
    var parts := Split(data, Separator);
    var ids := RemoveAll(parts, "");
    forall i | 0 <= i < |ids|
      ensures WellFormedId(ids[i])
    {
      assert ids[i] in multiset(ids);
      assert ids[i] in multiset(parts);
      assert ids[i] in parts;
    }
    ids
  }

  /** Re-encoding what the constructor read gives back the stored value. */
  lemma EncodeDecodeAsWritten(data: string)
    ensures Encode(DecodeAsWritten(data)) == data
  {
    JoinSplit(data, Separator);
  }

  /** The constructor reads back a written index, as long as it names at least one id and no id has a comma. */
  lemma DecodeEncodeAsWritten(ids: seq<string>)
    requires |ids| >= 1
    requires forall i :: 0 <= i < |ids| ==> Separator !in ids[i]
    ensures DecodeAsWritten(Encode(ids)) == ids
  {
    SplitJoin(ids, Separator);
  }

  /** The empty list is written as "" and that is read back as one empty id, not as no ids. */
  lemma EmptyIndexAsWritten()
    ensures Encode([]) == ""
    ensures DecodeAsWritten(Encode([])) == [""]
  {
  }

  /** A stray comma in front of an id, as in ",X", is dropped and the id kept. */
  lemma DecodeDropsLeadingEmpty(id: string)
    requires WellFormedId(id)
    ensures Decode([Separator] + id) == [id]
  {
    var parts: seq<string> := ["", id];
    assert parts[1..] == [id];
    assert Join(parts, Separator) == "" + [Separator] + id;
    assert Encode(parts) == [Separator] + id;
    assert Split([Separator] + id, Separator) == ["", id];
    assert RemoveAll(["", id], "") == [id] by {
      assert ["", id][1..] == [id];
      RemoveAbsent([id], "");
    }
  }

  lemma {:induction false} RemoveAbsent<T>(xs: seq<T>, x: T)
    requires x !in xs
    ensures RemoveAll(xs, x) == xs
    decreases |xs|
  {
    if |xs| > 0 {
      RemoveAbsent(xs[1..], x);
      assert xs == [xs[0]] + xs[1..];
    }
  }

  /** Every list of well-formed ids, the empty one included, survives encoding and decoding. */
  lemma DecodeEncode(ids: seq<string>)
    requires forall i :: 0 <= i < |ids| ==> WellFormedId(ids[i])
    ensures Decode(Encode(ids)) == ids
  {
    if |ids| == 0 {
      assert Split("", Separator) == [""];
      assert RemoveAll([""], "") == [];
    } else {
      SplitJoin(ids, Separator);
      RemoveAbsent(ids, "");
    }
  }

  /**
   * The membership update of `updateModel`: the id is appended when it is not
   * already listed.
   */
  function AppendIfAbsent(ids: seq<string>, id: string): (r: seq<string>)
    ensures id in r
    ensures id in ids ==> r == ids
    ensures id !in ids ==> |r| == |ids| + 1 && r[..|ids|] == ids && r[|ids|..] == [id]
  {
    if id in ids then ids else ids + [id]
  }

  /** Repeating the update changes nothing, and an id listed at most once ends up listed exactly once. */
  lemma AppendIfAbsentIdempotent(ids: seq<string>, id: string)
    ensures AppendIfAbsent(AppendIfAbsent(ids, id), id) == AppendIfAbsent(ids, id)
    ensures multiset(ids)[id] <= 1 ==> multiset(AppendIfAbsent(ids, id))[id] == 1
  {
  }

  lemma {:induction false} RemoveAllAppended<T>(xs: seq<T>, x: T)
    ensures RemoveAll(xs + [x], x) == RemoveAll(xs, x)
    decreases |xs|
  {
    if |xs| == 0 {
      assert [] + [x] == [x];
      assert [x][1..] == [];
    } else {
      assert (xs + [x])[0] == xs[0];
      assert (xs + [x])[1..] == xs[1..] + [x];
      RemoveAllAppended(xs[1..], x);
    }
  }

  /**
   * The membership update of `destroy`: when the id is listed, push it once
   * more and reject every copy; otherwise leave the list alone.
   */
  function Remove(ids: seq<string>, id: string): (r: seq<string>)
    ensures id !in r
    ensures id !in ids ==> r == ids
    ensures r == RemoveAll(ids, id)
    ensures multiset(r) == multiset(ids)[id := 0]
    ensures SubsequenceOf(r, ids)
  {
    if id in ids then
      RemoveAllAppended(ids, id);
      RemoveAll(ids + [id], id)
    else
      RemoveAbsent(ids, id);
      ids
  }
}
