/** UTF-8 as the runtime writes and reads it. */
module Encoding {
  // Writing replaces a surrogate without its partner; reading is strict, and drops a byte order mark.

  import opened Results
  import opened Text

  const REPLACEMENT: seq<Byte> := [0xEF, 0xBF, 0xBD]
  const BYTE_ORDER_MARK: seq<Byte> := [0xEF, 0xBB, 0xBF]

  predicate Surrogate(c: CodeUnit) { Leading(c) || Trailing(c) }

  predicate Continuation(b: Byte) { 0x80 <= b < 0xC0 }

  // ----- writing

  function UnitBytes(c: CodeUnit): (b: seq<Byte>)
    ensures |b| == if c < 0x80 then 1 else if c < 0x800 then 2 else 3
  {
    var n := c as int;
    if n < 0x80 then [n as Byte]
    else if n < 0x800 then [(0xC0 + n / 64) as Byte, (0x80 + n % 64) as Byte]
    else if Surrogate(c) then REPLACEMENT
    else [(0xE0 + n / 4096) as Byte, (0x80 + n / 64 % 64) as Byte, (0x80 + n % 64) as Byte]
  }

  /** The code point of a surrogate pair. */
  function PairScalar(high: CodeUnit, low: CodeUnit): (n: int)
    requires Leading(high) && Trailing(low)
    ensures 0x10000 <= n < 0x110000
  {
    0x10000 + (high as int - 0xD800) * 0x400 + (low as int - 0xDC00)
  }

  function PairBytes(high: CodeUnit, low: CodeUnit): (b: seq<Byte>)
    requires Leading(high) && Trailing(low)
    ensures |b| == 4
  {
    var n := PairScalar(high, low);
    [(0xF0 + n / 0x40000) as Byte, (0x80 + n / 4096 % 64) as Byte, (0x80 + n / 64 % 64) as Byte,
     (0x80 + n % 64) as Byte]
  }

  /** How many code units the first character has. */
  function FirstUnits(t: Utf16): (n: nat)
    requires t != []
    ensures 1 <= n <= |t|
  {
    if Paired(t) then 2 else 1
  }

  function FirstBytes(t: Utf16): (b: seq<Byte>)
    requires t != []
    ensures 1 <= |b| <= 4
  {
    if Paired(t) then PairBytes(t[0], t[1]) else UnitBytes(t[0])
  }

  /** `Buffer.from(text)` */
  function Utf8(t: Utf16): (b: seq<Byte>)
    ensures |b| == Utf8Length(t)
    decreases |t|
  {
    if t == [] then [] else FirstBytes(t) + Utf8(t[FirstUnits(t)..])
  }

  /** `Buffer.byteLength(text)` */
  function Utf8Length(t: Utf16): nat {
    if t == [] then 0
    else if Paired(t) then 4 + Utf8Length(t[2..])
    else (if t[0] < 0x80 then 1 else if t[0] < 0x800 then 2 else 3) + Utf8Length(t[1..])
  }

  /** The shortest form of a scalar value, by the table in section 3 of RFC 3629. */
  predicate Encodes(b: seq<Byte>, n: int) {
    if n < 0x80 then |b| == 1 && b[0] as int == n
    else
      && (forall i :: 1 <= i < |b| ==> 0x80 <= b[i] <= 0xBF)
      && if n < 0x800 then
           |b| == 2 && 0xC0 <= b[0] <= 0xDF && n == (b[0] as int - 0xC0) * 64 + (b[1] as int - 0x80)
         else if n < 0x10000 then
           && |b| == 3 && 0xE0 <= b[0] <= 0xEF
           && n == (b[0] as int - 0xE0) * 4096 + (b[1] as int - 0x80) * 64 + (b[2] as int - 0x80)
         else
           && |b| == 4 && 0xF0 <= b[0] <= 0xF7
           && n == (b[0] as int - 0xF0) * 262144 + (b[1] as int - 0x80) * 4096 + (b[2] as int - 0x80) * 64
                   + (b[3] as int - 0x80)
  }

  /** A text's bytes are those of its first character and of the rest: a surrogate pair is one
      character, and half a pair is written as U+FFFD. */
  lemma Utf8Means(t: Utf16)
    requires t != []
    ensures if |t| > 1 && 0xD800 <= t[0] <= 0xDBFF && 0xDC00 <= t[1] <= 0xDFFF then
              exists b :: Encodes(b, 0x10000 + (t[0] as int - 0xD800) * 1024 + (t[1] as int - 0xDC00))
                          && Utf8(t) == b + Utf8(t[2..])
            else
              exists b :: Encodes(b, if 0xD800 <= t[0] <= 0xDFFF then 0xFFFD else t[0] as int)
                          && Utf8(t) == b + Utf8(t[1..])
  {
    hide Utf8, Encodes;
    var b := FirstBytes(t);
    Utf8First(t);
    if Paired(t) {
      PairEncodes(t[0], t[1]);
    } else {
      UnitEncodes(t[0]);
    }
    assert Utf8(t) == b + Utf8(t[FirstUnits(t)..]);
  }

  lemma Utf8First(t: Utf16)
    requires t != []
    ensures Utf8(t) == FirstBytes(t) + Utf8(t[FirstUnits(t)..])
  {
  }

  lemma UnitEncodes(c: CodeUnit)
    ensures Encodes(UnitBytes(c), if Surrogate(c) then 0xFFFD else c as int)
  {
  }

  lemma PairEncodes(high: CodeUnit, low: CodeUnit)
    requires Leading(high) && Trailing(low)
    ensures Encodes(PairBytes(high, low), 0x10000 + (high as int - 0xD800) * 1024 + (low as int - 0xDC00))
  {
    var n := PairScalar(high, low);
    var (m, b) := (n / 64 / 64, PairBytes(high, low));
    assert n / 4096 == m && n / 262144 == m / 64;
    assert n == (m / 64 * 64 + m % 64) * 4096 + n / 64 % 64 * 64 + n % 64;
    assert b[0] as int == 0xF0 + m / 64 && b[1] as int == 0x80 + m % 64;
    assert b[2] as int == 0x80 + n / 64 % 64 && b[3] as int == 0x80 + n % 64;
  }

  lemma {:induction false} Utf8LengthOfPrefix(t: Utf16, n: nat)
    requires n <= |t|
    ensures Utf8Length(t[..n]) <= Utf8Length(t)
    decreases |t|
  {
    if n == 0 {
    } else if Paired(t) {
      if n == 1 {
        assert t[..1][1..] == [];
      } else {
        Utf8LengthOfPrefix(t[2..], n - 2);
        assert t[..n][2..] == t[2..][..n - 2];
      }
    } else {
      Utf8LengthOfPrefix(t[1..], n - 1);
      assert t[..n][1..] == t[1..][..n - 1];
    }
  }

  /** A cut at n does not part the bytes of a character. */
  predicate Between(b: seq<Byte>, n: nat)
    requires n <= |b|
  {
    n == |b| || !Continuation(b[n])
  }

  // ----- reading

  /** How many bytes a character has that begins with this one; none for a byte that begins nothing. */
  function Announced(b: Byte): nat {
    if b < 0x80 then 1
    else if 0xC2 <= b < 0xE0 then 2
    else if 0xE0 <= b < 0xF0 then 3
    else if 0xF0 <= b < 0xF5 then 4
    else 0
  }

  function ScalarUnits(n: int): Utf16
    requires 0 <= n < 0x110000
  {
    if n < 0x10000 then [n as CodeUnit]
    else [(0xD800 + (n - 0x10000) / 0x400) as CodeUnit, (0xDC00 + (n - 0x10000) % 0x400) as CodeUnit]
  }

  /** The six bits of a continuation byte. */
  function Low(b: Byte): (n: int)
    requires Continuation(b)
    ensures 0 <= n < 64
  {
    b as int - 0x80
  }

  /** One character, all of whose bytes are given: not written longer than need be, no surrogate, and
      within the range of Unicode. */
  function ReadCharacter(b: seq<Byte>): Option<Utf16>
    requires b != [] && |b| == Announced(b[0])
  {
    if |b| == 1 then Some([b[0] as int as CodeUnit])
    else if exists i :: 1 <= i < |b| && !Continuation(b[i]) then None
    else if |b| == 2 then Some(ScalarUnits((b[0] as int - 0xC0) * 64 + Low(b[1])))
    else if |b| == 3 then
      var n := (b[0] as int - 0xE0) * 4096 + Low(b[1]) * 64 + Low(b[2]);
      if n < 0x800 || 0xD800 <= n < 0xE000 then None else Some(ScalarUnits(n))
    else
      var n := (b[0] as int - 0xF0) * 0x40000 + Low(b[1]) * 4096 + Low(b[2]) * 64 + Low(b[3]);
      if n < 0x10000 || n >= 0x110000 then None else Some(ScalarUnits(n))
  }

  function ReadCharacters(b: seq<Byte>): Option<Utf16>
    decreases |b|
  {
    if b == [] then Some([])
    else
      var n := Announced(b[0]);
      if n == 0 || n > |b| then None
      else
        match (ReadCharacter(b[..n]), ReadCharacters(b[n..]))
        case (Some(first), Some(rest)) => Some(first + rest)
        case _ => None
  }

  /** `new TextDecoder('utf-8', { fatal: true }).decode(bytes)` */
  function DecodeUtf8(b: seq<Byte>): Option<Utf16> {
    ReadCharacters(if BYTE_ORDER_MARK <= b then b[3..] else b)
  }

  // ----- reading undoes writing

  /** No surrogate without its partner. */
  predicate Sound(t: Utf16)
    decreases |t|
  {
    t == [] || (Paired(t) && Sound(t[2..])) || (!Surrogate(t[0]) && Sound(t[1..]))
  }

  lemma FirstOfAppended(a: Utf16, b: Utf16)
    requires a != [] && Sound(a)
    ensures FirstUnits(a + b) == FirstUnits(a) && FirstBytes(a + b) == FirstBytes(a)
    ensures (a + b)[FirstUnits(a)..] == a[FirstUnits(a)..] + b
    ensures Sound(a + b) <==> Sound(a[FirstUnits(a)..] + b)
  {
    assert (a + b)[FirstUnits(a)..] == a[FirstUnits(a)..] + b;
    hide PairBytes, UnitBytes;
  }

  lemma {:induction false} SoundAppend(a: Utf16, b: Utf16)
    requires Sound(a)
    ensures Sound(a + b) <==> Sound(b)
    decreases |a|
  {
    if a == [] {
      assert a + b == b;
    } else {
      SoundFirst(a);
      FirstOfAppended(a, b);
      SoundAppend(a[FirstUnits(a)..], b);
    }
  }

  lemma {:induction false} Utf8Append(a: Utf16, b: Utf16)
    requires Sound(a)
    ensures Utf8(a + b) == Utf8(a) + Utf8(b)
    decreases |a|
  {
    hide FirstBytes, FirstUnits, Sound, Utf8Length;
    if a == [] {
      assert a + b == b;
    } else {
      SoundFirst(a);
      FirstOfAppended(a, b);
      Utf8Append(a[FirstUnits(a)..], b);
    }
  }

  lemma SoundFirst(t: Utf16)
    requires t != [] && Sound(t)
    ensures Sound(t[FirstUnits(t)..]) && (Paired(t) || !Surrogate(t[0]))
  {
  }

  lemma SixBits(n: int)
    requires 0 <= n
    ensures n / 64 * 64 + n % 64 == n
    ensures n / 4096 * 4096 + n / 64 % 64 * 64 + n % 64 == n
    ensures n / 0x40000 * 0x40000 + n / 4096 % 64 * 4096 + n / 64 % 64 * 64 + n % 64 == n
  {
    assert n / 64 / 64 == n / 4096 && n / 4096 / 64 == n / 0x40000;
  }

  lemma UnitReadsBack(c: CodeUnit)
    requires !Surrogate(c)
    ensures var b := UnitBytes(c); |b| == Announced(b[0]) && ReadCharacter(b) == Some([c])
  {
    SixBits(c as int);
  }

  lemma PairReadsBack(high: CodeUnit, low: CodeUnit)
    requires Leading(high) && Trailing(low)
    ensures var b := PairBytes(high, low); |b| == Announced(b[0]) && ReadCharacter(b) == Some([high, low])
  {
    SixBits(PairScalar(high, low));
  }

  lemma FirstReadsBack(t: Utf16)
    requires t != [] && Sound(t)
    ensures var b := FirstBytes(t);
            && |b| == Announced(b[0]) && ReadCharacter(b) == Some(t[..FirstUnits(t)])
            && !Continuation(b[0]) && forall i :: 1 <= i < |b| ==> Continuation(b[i])
  {
    SoundFirst(t);
    if Paired(t) {
      PairReadsBack(t[0], t[1]);
      assert t[..2] == [t[0], t[1]];
    } else {
      UnitReadsBack(t[0]);
      assert t[..1] == [t[0]];
    }
    hide ReadCharacter;
  }

  lemma ReadFirst(first: seq<Byte>, rest: seq<Byte>)
    requires first != [] && |first| == Announced(first[0])
    ensures ReadCharacters(first + rest)
            == match (ReadCharacter(first), ReadCharacters(rest))
               case (Some(c), Some(more)) => Some(c + more)
               case _ => None
  {
    hide ReadCharacter;
    assert (first + rest)[..|first|] == first && (first + rest)[|first|..] == rest;
  }

  lemma ReadCutShort(first: seq<Byte>, n: nat)
    requires 0 < n < |first| && |first| == Announced(first[0])
    ensures ReadCharacters(first[..n]).None?
  {
    hide ReadCharacter;
    assert first[..n][0] == first[0];
  }

  /** The first n bytes of a text read as its first m units, or not at all when a character is cut. */
  predicate ReadsTo(t: Utf16, n: nat, m: nat) {
    && m <= |t| && n <= |Utf8(t)|
    && ReadCharacters(Utf8(t)[..n]) == (if Between(Utf8(t), n) then Some(t[..m]) else None)
    && (Between(Utf8(t), n) ==> Utf8Length(t[..m]) == n && (m == |t| <==> n == |Utf8(t)|))
  }

  lemma CutInFirst(t: Utf16, n: nat)
    requires t != [] && Sound(t) && 0 < n < |FirstBytes(t)|
    ensures ReadsTo(t, n, 0)
  {
    hide ReadCharacter, ReadCharacters, FirstBytes, FirstUnits, Utf8Length, Sound, Announced;
    var first := FirstBytes(t);
    FirstReadsBack(t);
    ReadCutShort(first, n);
    assert Utf8(t) == first + Utf8(t[FirstUnits(t)..]);
    assert Utf8(t)[..n] == first[..n] && Utf8(t)[n] == first[n];
  }

  lemma CutAfterFirst(t: Utf16, n: nat, m: nat)
    requires t != [] && Sound(t) && |FirstBytes(t)| <= n
    requires ReadsTo(t[FirstUnits(t)..], n - |FirstBytes(t)|, m)
    ensures ReadsTo(t, n, FirstUnits(t) + m)
  {
    hide ReadCharacter, ReadCharacters, FirstBytes, FirstUnits, Utf8Length, Sound, Announced;
    var k, first := FirstUnits(t), FirstBytes(t);
    var rest, l := Utf8(t[k..]), n - |first|;
    FirstReadsBack(t);
    assert Utf8(t) == first + rest;
    assert Utf8(t)[..n] == first + rest[..l];
    ReadFirst(first, rest[..l]);
    assert t[..k] + t[k..][..m] == t[..k + m];
    LengthAfterFirst(t, k + m);
    assert t[k..][..k + m - k] == t[k..][..m];
    assert n < |Utf8(t)| ==> Utf8(t)[n] == rest[l];
  }

  /** The text's bytes up to the n-th can be read exactly when the cut falls between characters, and
      then give the characters before the cut. */
  lemma {:induction false} CutReads(t: Utf16, n: nat) returns (m: nat)
    requires Sound(t) && n <= |Utf8(t)|
    ensures ReadsTo(t, n, m)
    decreases |t|
  {
    hide ReadsTo, FirstBytes, FirstUnits, Utf8Length, Sound;
    m := 0;
    if n == 0 {
      CutAtStart(t);
    } else {
      SoundFirst(t);
      if n < |FirstBytes(t)| {
        CutInFirst(t, n);
      } else {
        m := CutReads(t[FirstUnits(t)..], n - |FirstBytes(t)|);
        CutAfterFirst(t, n, m);
        m := FirstUnits(t) + m;
      }
    }
  }

  lemma CutAtStart(t: Utf16)
    requires Sound(t)
    ensures ReadsTo(t, 0, 0)
  {
    if t != [] {
      FirstReadsBack(t);
    }
  }

  lemma LengthAfterFirst(t: Utf16, m: nat)
    requires t != [] && Sound(t) && FirstUnits(t) <= m <= |t|
    ensures Utf8Length(t[..m]) == |FirstBytes(t)| + Utf8Length(t[FirstUnits(t)..][..m - FirstUnits(t)])
  {
    var k := FirstUnits(t);
    assert t[..m][k..] == t[k..][..m - k];
  }

  // ----- only what writing gives can be read

  lemma UnitWrites(c: CodeUnit)
    requires !Surrogate(c)
    ensures Sound([c]) && Utf8([c]) == UnitBytes(c)
  {
    assert [c][1..] == [];
  }

  lemma PairWrites(high: CodeUnit, low: CodeUnit)
    requires Leading(high) && Trailing(low)
    ensures Sound([high, low]) && Utf8([high, low]) == PairBytes(high, low)
  {
    assert [high, low][2..] == [];
  }

  lemma TwoBytesWrite(b: seq<Byte>)
    requires |b| == 2 == Announced(b[0]) && ReadCharacter(b).Some?
    ensures Sound(ReadCharacter(b).value) && Utf8(ReadCharacter(b).value) == b
  {
    var n := (b[0] as int - 0xC0) * 64 + Low(b[1]);
    assert n / 64 == b[0] as int - 0xC0 && n % 64 == Low(b[1]);
    UnitWrites(n as CodeUnit);
  }

  lemma ThreeBytesWrite(b: seq<Byte>)
    requires |b| == 3 == Announced(b[0]) && ReadCharacter(b).Some?
    ensures Sound(ReadCharacter(b).value) && Utf8(ReadCharacter(b).value) == b
  {
    var m := (b[0] as int - 0xE0) * 64 + Low(b[1]);
    var n := m * 64 + Low(b[2]);
    assert n / 64 == m && n % 64 == Low(b[2]);
    assert m / 64 == b[0] as int - 0xE0 && m % 64 == Low(b[1]);
    assert n / 4096 == m / 64;
    UnitWrites(n as CodeUnit);
  }

  lemma FourBytesWrite(b: seq<Byte>)
    requires |b| == 4 == Announced(b[0]) && ReadCharacter(b).Some?
    ensures Sound(ReadCharacter(b).value) && Utf8(ReadCharacter(b).value) == b
  {
    hide Utf8, Sound;
    var l := (b[0] as int - 0xF0) * 64 + Low(b[1]);
    var m := l * 64 + Low(b[2]);
    var n := m * 64 + Low(b[3]);
    assert n / 64 == m && n % 64 == Low(b[3]);
    assert m / 64 == l && m % 64 == Low(b[2]) && l / 64 == b[0] as int - 0xF0 && l % 64 == Low(b[1]);
    assert n / 4096 == l && n / 0x40000 == l / 64;
    var high, low := (0xD800 + (n - 0x10000) / 0x400) as CodeUnit, (0xDC00 + (n - 0x10000) % 0x400) as CodeUnit;
    assert ReadCharacter(b).value == [high, low] && PairScalar(high, low) == n;
    PairWrites(high, low);
  }

  lemma CharacterWrites(b: seq<Byte>)
    requires b != [] && |b| == Announced(b[0]) && ReadCharacter(b).Some?
    ensures Sound(ReadCharacter(b).value) && Utf8(ReadCharacter(b).value) == b
  {
    if |b| == 1 {
      UnitWrites(b[0] as int as CodeUnit);
    } else if |b| == 2 {
      TwoBytesWrite(b);
    } else if |b| == 3 {
      ThreeBytesWrite(b);
    } else {
      FourBytesWrite(b);
    }
  }

  lemma {:induction false} ReadIsWritten(b: seq<Byte>)
    ensures ReadCharacters(b).Some? ==> Sound(ReadCharacters(b).value) && Utf8(ReadCharacters(b).value) == b
    decreases |b|
  {
    hide ReadCharacter, Utf8, Sound;
    if b == [] {
      NothingWritten();
    } else if ReadCharacters(b).Some? {
      var n := Announced(b[0]);
      ReadIsWritten(b[n..]);
      CharacterWrites(b[..n]);
      SoundAppend(ReadCharacter(b[..n]).value, ReadCharacters(b[n..]).value);
      Utf8Append(ReadCharacter(b[..n]).value, ReadCharacters(b[n..]).value);
      assert b == b[..n] + b[n..];
    }
  }

  lemma NothingWritten()
    ensures Sound([]) && Utf8([]) == []
  {
  }

  /** Decoding is strict: bytes decode to a text exactly when they are that text's bytes, a byte order
      mark in front aside, and the text has no surrogate without its partner. */
  lemma DecodesExactly(b: seq<Byte>, t: Utf16)
    ensures DecodeUtf8(b) == Some(t)
            <==> Sound(t) && Utf8(t) == if BYTE_ORDER_MARK <= b then b[3..] else b
  {
    hide ReadCharacters, Utf8, Sound;
    var rest := if BYTE_ORDER_MARK <= b then b[3..] else b;
    ReadIsWritten(rest);
    if Sound(t) && Utf8(t) == rest {
      var m := CutReads(t, |rest|);
      assert Utf8(t)[..|rest|] == rest && t[..|t|] == t;
    }
  }
}
