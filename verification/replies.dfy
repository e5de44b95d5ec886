/**
 * What the adapter makes of transport replies: the outcome delivered to the
 * caller's `success` or `error` callback, the fixed error texts, and the
 * "exactly one top-level key" test that tells a user's data from anything else.
 */
module Replies {
  import opened Wrappers
  import opened Numerals
  import opened FakeAppData

  /**
   * What one operation delivers: `success(value)`, `error(message)`, or an
   * exception escaping to the caller (a `JSON.parse` or property-access fault).
   */
  datatype Outcome<T> = Success(value: T) | Failure(message: string) | Thrown

  const ModelNotFound: string := "Model not found."
  const ModelsNotFound: string := "Models not found."

  /** The verb phrases the error texts name. */
  const Retrieving: string := "retrieving model"
  const Destroying: string := "destroying model"
  const Updating: string := "updating application data"

  /** `"Error " + code + " " + action + ": " + message`. */
  function ErrorText(e: TransportError, action: string): (r: string)
    ensures |r| > 6 + |action| + 2 + |e.message|
    ensures r[..6] == "Error "
    ensures r[|r| - |e.message| - 2..] == ": " + e.message
  {
    "Error " + Decimal(e.code) + " " + action + ": " + e.message
  }

  /** Two strings that each put a separator after a separator-free head split the same way. */
  lemma SplitAtSeparator(c: char, a: string, x: string, b: string, y: string)
    requires c !in a && c !in b
    requires a + [c] + x == b + [c] + y
    ensures a == b && x == y
  {
    var s := a + [c] + x;
    assert s[|a|] == c;
    assert (b + [c] + y)[|b|] == c;
    assert |a| == |b|;
    assert a == s[..|a|];
    assert b == (b + [c] + y)[..|b|];
    assert x == s[|a| + 1..];
    assert y == (b + [c] + y)[|b| + 1..];
  }

  /** What follows "Error ": the code, a space, then the action and the message. */
  lemma ErrorTextTail(e: TransportError, action: string)
    ensures ErrorText(e, action)[6..] == Decimal(e.code) + [' '] + (action + ": " + e.message)
  {
    var t := ErrorText(e, action);
    assert t == "Error " + (Decimal(e.code) + [' '] + (action + ": " + e.message));
  }

  /** An error text determines the transport error it reports. */
  lemma ErrorTextInjective(e1: TransportError, e2: TransportError, action: string)
    requires ErrorText(e1, action) == ErrorText(e2, action)
    ensures e1 == e2
  {
    var r1 := action + ": " + e1.message;
    var r2 := action + ": " + e2.message;
    ErrorTextTail(e1, action);
    ErrorTextTail(e2, action);
    SplitAtSeparator(' ', Decimal(e1.code), r1, Decimal(e2.code), r2);
    DecimalInjective(e1.code, e2.code);
    assert e1.message == r1[|action| + 2..];
    assert e2.message == r2[|action| + 2..];
  }

  /** A transport failure with code 500 reads "Error 500 <action>: <message>", digit for digit. */
  lemma ErrorTextForCode500(action: string, message: string)
    ensures ErrorText(TransportError(500, message), action) == "Error 500 " + action + ": " + message
  {
    assert ToRadix(5, 10) == "5";
    assert ToRadix(50, 10) == "50";
    assert ToRadix(500, 10) == "500";
    assert Decimal(500) == "500";
    assert "Error " + "500" + " " == "Error 500 ";
  }

  /** A transport error can never be mistaken for a not-found report. */
  lemma ErrorTextIsNotNotFound(e: TransportError, action: string)
    ensures ErrorText(e, action) != ModelNotFound
    ensures ErrorText(e, action) != ModelsNotFound
  {
    assert ErrorText(e, action)[0] == 'E';
  }

  /** The lone value of a map with exactly one key (`response[_.keys(response)[0]]`). */
  function SoleEntry<V(==)>(m: map<string, V>): (r: Option<V>)
    ensures r.Some? <==> |m| == 1
    ensures r.Some? ==> m.Values == {r.value}
  {
    if |m| != 1 then None
    else
      SingletonKeys(m);
      var k :| m.Keys == {k};
      Some(m[k])
  }

  lemma SingletonKeys<V>(m: map<string, V>)
    requires |m| == 1
    ensures exists k :: m.Keys == {k}
  {
    var k :| k in m.Keys;
    assert |m.Keys - {k}| == |m.Keys| - 1 == 0;
    assert m.Keys == {k};
  }

  /** The three ways a `get` reply is read. */
  datatype Lookup = Found(data: KeyValues) | Malformed | Failed(error: TransportError)

  /** A reply with an `error` field failed; one with exactly one top-level key found that user's data. */
  function Classify(reply: Reply<UserData>): (c: Lookup)
    ensures c.Failed? <==> reply.ErrorReply?
    ensures c.Failed? ==> c.error == reply.error
    ensures c.Found? <==> reply.Result? && |reply.body| == 1
    ensures c.Found? ==> reply.body.Values == {c.data}
  {
    match reply
    case ErrorReply(e) => Failed(e)
    case Result(users) =>
      match SoleEntry(users)
      case Some(data) => Found(data)
      case None => Malformed
  }

  /** A successful fake `get` reply is always classified as found, with the selected data. */
  lemma FakeGetIsFound(b: Backend, fields: seq<string>)
    ensures b.error.None? ==> Classify(Get(b, fields).reply) == Found(Selected(b.appdata, fields))
  {
    if b.error.None? {
      var users := Get(b, fields).reply.body;
      assert users == map[FakeUserId := Selected(b.appdata, fields)];
      assert users.Values == {Selected(b.appdata, fields)};
    }
  }
}
