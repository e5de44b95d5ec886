/**
 * `AppDataStore.Util`: four random hex digits (`S4`) and the pseudo-GUID built
 * from eight of them (`guid`). `Math.random()` is replaced by its integer
 * draw: `((1 + Math.random()) * 0x10000) | 0` is `0x10000 + n` for a draw `n`.
 */
module Util {
  import opened Numerals
  import opened Text

  /** The part of a random draw that survives `| 0` after subtracting 0x10000. */
  type Draw = n: int | 0 <= n < 0x10000

  predicate IsHex(c: char) {
    IsDigitIn(c, 16)
  }

  /** Reference rendering: the four hex digits of `n`, most significant first. */
  function FourHex(n: Draw): string {
    [DigitChar(n / 16 / 16 / 16), DigitChar(n / 16 / 16 % 16), DigitChar(n / 16 % 16), DigitChar(n % 16)]
  }

  /** `toString(16)` of `0x10000 + n` is a leading "1" followed by the four digits of `n`. */
  lemma ShiftedRendering(n: Draw)
    ensures ToRadix(0x10000 + n, 16) == "1" + FourHex(n)
  {
    var q1 := n / 16;
    var q2 := q1 / 16;
    var q3 := q2 / 16;
    var m0 := 0x10000 + n;
    var m1 := 0x1000 + q1;
    var m2 := 0x100 + q2;
    var m3 := 0x10 + q3;
    assert m0 / 16 == m1 && m0 % 16 == n % 16;
    assert m1 / 16 == m2 && m1 % 16 == q1 % 16;
    assert m2 / 16 == m3 && m2 % 16 == q2 % 16;
    assert m3 / 16 == 1 && m3 % 16 == q3;
    var d := FourHex(n);
    assert ToRadix(m3, 16) == "1" + [d[0]];
    assert ToRadix(m2, 16) == "1" + [d[0], d[1]];
    assert ToRadix(m1, 16) == "1" + [d[0], d[1], d[2]];
    assert ToRadix(m0, 16) == "1" + [d[0], d[1], d[2], d[3]];
  }

  /** Reading the four digits back gives the draw. */
  lemma FourHexValue(n: Draw)
    ensures FromRadix(FourHex(n), 16) == n
  {
    var s := FourHex(n);
    var q1 := n / 16;
    var q2 := q1 / 16;
    var a, b, c, e := q2 / 16, q2 % 16, q1 % 16, n % 16;
    DigitRoundTrip(a, 16);
    DigitRoundTrip(b, 16);
    DigitRoundTrip(c, 16);
    DigitRoundTrip(e, 16);
    assert s[..3][..2] == s[..2] && s[..2][..1] == s[..1] && s[..1][..0] == [];
    assert FromRadix(s[..1], 16) == a;
    assert FromRadix(s[..2], 16) == a * 16 + b == q2;
    assert FromRadix(s[..3], 16) == q2 * 16 + c == q1;
    assert FromRadix(s, 16) == q1 * 16 + e == n;
  }

  /** `S4()`: exactly four lower-case hex digits, which read back as the draw. */
  function S4(n: Draw): (r: string)
    ensures |r| == 4
    ensures forall i :: 0 <= i < |r| ==> IsHex(r[i])
    ensures FromRadix(r, 16) == n
  {
    ShiftedRendering(n);
    FourHexValue(n);
    ToRadix(0x10000 + n, 16)[1..]
  }

  /** The five hyphen-separated groups of a pseudo-GUID: 8, 4, 4, 4 and 12 digits. */
  function Groups(d: seq<Draw>): (g: seq<string>)
    requires |d| == 8
  {
    [S4(d[0]) + S4(d[1]), S4(d[2]), S4(d[3]), S4(d[4]), S4(d[5]) + S4(d[6]) + S4(d[7])]
  }

  /** `guid()`, given the eight draws of its eight `S4()` calls, in call order. */
  function Guid(d: seq<Draw>): (r: string)
    requires |d| == 8
    ensures |r| == 36
    ensures forall i :: 0 <= i < |r| ==> (r[i] == '-' <==> i == 8 || i == 13 || i == 18 || i == 23)
    ensures forall i :: 0 <= i < |r| && r[i] != '-' ==> IsHex(r[i])
    ensures ',' !in r
  {
    S4(d[0]) + S4(d[1]) + "-" + S4(d[2]) + "-" + S4(d[3]) + "-" + S4(d[4]) + "-" + S4(d[5]) + S4(d[6]) + S4(d[7])
  }

  /** Splitting a pseudo-GUID on "-" gives its five groups, of 8, 4, 4, 4 and 12 hex digits. */
  lemma GuidSplitsIntoGroups(d: seq<Draw>)
    requires |d| == 8
    ensures Split(Guid(d), '-') == Groups(d)
    ensures |Groups(d)[0]| == 8 && |Groups(d)[1]| == 4 && |Groups(d)[2]| == 4
    ensures |Groups(d)[3]| == 4 && |Groups(d)[4]| == 12
    ensures forall k, i :: 0 <= k < 5 && 0 <= i < |Groups(d)[k]| ==> IsHex(Groups(d)[k][i])
  {
    var g := Groups(d);
    forall k | 0 <= k < 5
      ensures '-' !in g[k]
    {
      assert forall i :: 0 <= i < |g[k]| ==> IsHex(g[k][i]);
    }
    assert Join(g, '-') == Guid(d) by {
      assert Join(g[4..], '-') == g[4];
      assert Join(g[3..], '-') == g[3] + "-" + g[4];
      assert Join(g[2..], '-') == g[2] + "-" + g[3] + "-" + g[4];
      assert Join(g[1..], '-') == g[1] + "-" + g[2] + "-" + g[3] + "-" + g[4];
    }
    SplitJoin(g, '-');
  }
}
