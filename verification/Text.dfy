/** Strings as the source language sees them. */
module Text {
  // A string is a sequence of UTF-16 code units, compared unit by unit (the order of JavaScript's
  // `<` on strings and of `Array.prototype.sort` without a comparator).

  newtype CodeUnit = x: int | 0 <= x < 0x10000

  type Utf16 = seq<CodeUnit>

  newtype Byte = x: int | 0 <= x < 256

  /** The first and the second half of a surrogate pair. */
  predicate Leading(c: CodeUnit) { 0xD800 <= c < 0xDC00 }

  predicate Trailing(c: CodeUnit) { 0xDC00 <= c < 0xE000 }

  predicate Paired(s: Utf16) {
    |s| >= 2 && Leading(s[0]) && Trailing(s[1])
  }

  /** Reads an ASCII literal as code units. */
  function Ascii(s: string): (t: Utf16)
    requires forall i :: 0 <= i < |s| ==> s[i] < '\U{80}'
    ensures |t| == |s|
  {
    seq(|s|, i requires 0 <= i < |s| => s[i] as int as CodeUnit)
  }

  /** Lexicographic order by code unit; `compareText(a, b) <= 0` in the source. */
  predicate AtMost(a: Utf16, b: Utf16) {
    a == [] || (b != [] && (a[0] < b[0] || (a[0] == b[0] && AtMost(a[1..], b[1..]))))
  }

  lemma {:induction false} AtMostTotal(a: Utf16, b: Utf16)
    ensures AtMost(a, b) || AtMost(b, a)
  {
    if a != [] && b != [] {
      AtMostTotal(a[1..], b[1..]);
    }
  }

  lemma {:induction false} AtMostTransitive(a: Utf16, b: Utf16, c: Utf16)
    requires AtMost(a, b) && AtMost(b, c)
    ensures AtMost(a, c)
  {
    if a != [] && a[0] == b[0] && b[0] == c[0] {
      AtMostTransitive(a[1..], b[1..], c[1..]);
    }
  }

  lemma {:induction false} AtMostAntisymmetric(a: Utf16, b: Utf16)
    requires AtMost(a, b) && AtMost(b, a)
    ensures a == b
  {
    if a != [] {
      AtMostAntisymmetric(a[1..], b[1..]);
      assert a == [a[0]] + a[1..] && b == [b[0]] + b[1..];
    }
  }

  lemma AtMostIsTotalOrder()
    ensures forall a: Utf16, b: Utf16 :: AtMost(a, b) || AtMost(b, a)
    ensures forall a: Utf16, b: Utf16, c: Utf16 :: AtMost(a, b) && AtMost(b, c) ==> AtMost(a, c)
    ensures forall a: Utf16, b: Utf16 :: AtMost(a, b) && AtMost(b, a) ==> a == b
  {
    forall a: Utf16, b: Utf16 ensures AtMost(a, b) || AtMost(b, a) {
      AtMostTotal(a, b);
    }
    forall a: Utf16, b: Utf16, c: Utf16 | AtMost(a, b) && AtMost(b, c) ensures AtMost(a, c) {
      AtMostTransitive(a, b, c);
    }
    forall a: Utf16, b: Utf16 | AtMost(a, b) && AtMost(b, a) ensures a == b {
      AtMostAntisymmetric(a, b);
    }
  }

  /** The order by code unit: a prefix comes first, and otherwise the smaller unit at the first
      difference. */
  lemma {:induction false} AtMostMeans(a: Utf16, b: Utf16)
    ensures AtMost(a, b) <==>
              || (|a| <= |b| && b[..|a|] == a)
              || exists k :: 0 <= k < |a| && k < |b| && a[..k] == b[..k] && a[k] < b[k]
  {
    if a != [] && b != [] && a[0] == b[0] {
      AtMostMeans(a[1..], b[1..]);
      assert a == [a[0]] + a[1..] && b == [b[0]] + b[1..];
      if k :| 0 <= k < |a| && k < |b| && a[..k] == b[..k] && a[k] < b[k] {
        assert a[1..][..k - 1] == a[..k][1..] && b[1..][..k - 1] == b[..k][1..];
        assert a[1..][k - 1] < b[1..][k - 1];
      }
      if k :| 0 <= k < |a[1..]| && k < |b[1..]| && a[1..][..k] == b[1..][..k] && a[1..][k] < b[1..][k] {
        assert a[..k + 1] == [a[0]] + a[1..][..k] && b[..k + 1] == [b[0]] + b[1..][..k];
        assert a[k + 1] < b[k + 1];
      }
      if |a| <= |b| {
        assert b[..|a|][1..] == b[1..][..|a| - 1];
      }
    } else if a != [] && b != [] {
      assert a[..0] == b[..0];
      if |a| <= |b| {
        assert b[..|a|][0] == b[0];
      }
      forall k | 0 < k < |a| && k < |b| ensures a[..k] != b[..k] {
        assert a[..k][0] != b[..k][0];
      }
    }
  }
}
