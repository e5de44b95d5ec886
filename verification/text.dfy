/**
 * The JavaScript string and array operations the adapter relies on:
 * `Array.prototype.join` and `String.prototype.split` with a one-character
 * separator, and Underscore's `_.reject` with an equality test.
 */
module Text {

  /** `parts.join(sep)`: the parts with one separator between neighbours. */
  function Join(parts: seq<string>, sep: char): string
  {
    if |parts| == 0 then ""
    else if |parts| == 1 then parts[0]
    else parts[0] + [sep] + Join(parts[1..], sep)
  }

  /**
   * `s.split(sep)`: the maximal separator-free pieces of `s`, in order.
   * As in JavaScript, the result is never empty; the empty string gives [""].
   */
  function Split(s: string, sep: char): (r: seq<string>)
    ensures |r| >= 1
    ensures forall i :: 0 <= i < |r| ==> sep !in r[i]
    decreases |s|
  {
    if |s| == 0 then [""]
    else if s[0] == sep then [""] + Split(s[1..], sep)
    else
      var rest := Split(s[1..], sep);
      [[s[0]] + rest[0]] + rest[1..]
  }

  /** Gluing a character onto the first part glues it onto the front of the join. */
  lemma JoinGlueFirst(c: char, parts: seq<string>, sep: char)
    requires |parts| >= 1
    ensures Join([[c] + parts[0]] + parts[1..], sep) == [c] + Join(parts, sep)
  {
    var glued := [[c] + parts[0]] + parts[1..];
    assert glued[0] == [c] + parts[0] && glued[1..] == parts[1..];
    if |parts| > 1 {
      assert Join(glued, sep) == ([c] + parts[0]) + [sep] + Join(parts[1..], sep);
    }
  }

  /** Joining what a split produced gives back the original string. */
  lemma {:induction false} JoinSplit(s: string, sep: char)
    ensures Join(Split(s, sep), sep) == s
    decreases |s|
  {
    if |s| > 0 {
      var rest := Split(s[1..], sep);
      JoinSplit(s[1..], sep);
      if s[0] == sep {
        var parts := [""] + rest;
        assert parts[0] == "" && parts[1..] == rest;
        assert Join(parts, sep) == "" + [sep] + s[1..];
      } else {
        JoinGlueFirst(s[0], rest, sep);
      }
      assert s == [s[0]] + s[1..];
    }
  }

  /** Splitting a separator-free prefix `p` followed by `t` glues `p` onto the first piece of `t`. */
  lemma {:induction false} SplitPrefix(p: string, t: string, sep: char)
    requires sep !in p
    ensures Split(p + t, sep) == [p + Split(t, sep)[0]] + Split(t, sep)[1..]
    decreases |p|
  {
    if |p| == 0 {
      assert p + t == t;
      assert p + Split(t, sep)[0] == Split(t, sep)[0];
      assert Split(t, sep) == [Split(t, sep)[0]] + Split(t, sep)[1..];
    } else {
      var q := p[1..];
      assert (p + t)[0] == p[0];
      assert (p + t)[1..] == q + t;
      SplitPrefix(q, t, sep);
      assert [p[0]] + (q + Split(t, sep)[0]) == p + Split(t, sep)[0];
    }
  }

  /**
   * Splitting what a join produced gives back the parts, provided there is at
   * least one part and no part contains the separator.
   */
  lemma {:induction false} SplitJoin(parts: seq<string>, sep: char)
    requires |parts| >= 1
    requires forall i :: 0 <= i < |parts| ==> sep !in parts[i]
    ensures Split(Join(parts, sep), sep) == parts
    decreases |parts|
  {
    if |parts| == 1 {
      SplitPrefix(parts[0], "", sep);
      assert parts[0] + "" == parts[0];
    } else {
      var tail := Join(parts[1..], sep);
      SplitJoin(parts[1..], sep);
      assert Split([sep] + tail, sep) == [""] + parts[1..] by {
        assert ([sep] + tail)[0] == sep;
        assert ([sep] + tail)[1..] == tail;
      }
      SplitPrefix(parts[0], [sep] + tail, sep);
      var pieces := [""] + parts[1..];
      assert pieces[0] == "" && pieces[1..] == parts[1..];
      assert parts[0] + "" == parts[0];
      assert Join(parts, sep) == parts[0] + ([sep] + tail);
      assert parts == [parts[0]] + parts[1..];
    }
  }

  /**
   * `b` keeps the elements of `a`, in order, possibly with others between them
   * (greedy matching decides this exactly).
   */
  ghost predicate SubsequenceOf<T>(a: seq<T>, b: seq<T>)
    decreases |b|
  {
    |a| == 0 || (|b| > 0 && if a[0] == b[0] then SubsequenceOf(a[1..], b[1..]) else SubsequenceOf(a, b[1..]))
  }

  /**
   * `_.reject(xs, function(y) { return y == x; })`: every occurrence of `x`
   * removed, every other element kept with its multiplicity and relative order.
   */
  function RemoveAll<T(==)>(xs: seq<T>, x: T): (r: seq<T>)
    ensures x !in r
    ensures multiset(r) == multiset(xs)[x := 0]
    ensures SubsequenceOf(r, xs)
    decreases |xs|
  {
    if |xs| == 0 then []
    else if xs[0] == x then
      assert xs == [xs[0]] + xs[1..];
      RemoveAll(xs[1..], x)
    else
      var rest := RemoveAll(xs[1..], x);
      assert xs == [xs[0]] + xs[1..];
      assert ([xs[0]] + rest)[1..] == rest;
      [xs[0]] + rest
  }
}
