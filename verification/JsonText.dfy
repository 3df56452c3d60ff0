/** What JSON text looks like, unit by unit. */
module JsonText {
  // The printer is described without its own functions: strings as JSON.stringify writes them
  // (QuoteJSONString in ECMA-262), numbers in decimal, and the punctuation of arrays and objects.

  import opened Json
  import opened Text

  // ----- strings

  /** The letter that stands after the backslash for each unit with a two-unit escape. */
  const LETTERS: map<CodeUnit, CodeUnit> :=
    map[0x22 := 0x22, 0x5C := 0x5C, 0x08 := 0x62, 0x09 := 0x74, 0x0A := 0x6E, 0x0C := 0x66, 0x0D := 0x72]

  /** `0123456789abcdef` */
  const HEX: seq<CodeUnit> :=
    [0x30, 0x31, 0x32, 0x33, 0x34, 0x35, 0x36, 0x37, 0x38, 0x39, 0x61, 0x62, 0x63, 0x64, 0x65, 0x66]

  /** s[k] is half of a surrogate pair whose other half is beside it. */
  predicate InPair(s: Utf16, k: int)
    requires 0 <= k < |s|
  {
    || (0xD800 <= s[k] <= 0xDBFF && k + 1 < |s| && 0xDC00 <= s[k + 1] <= 0xDFFF)
    || (0xDC00 <= s[k] <= 0xDFFF && k > 0 && 0xD800 <= s[k - 1] <= 0xDBFF)
  }

  /** A unit takes its two-unit escape if it has one, is written as itself if it may be, and as its
      four hexadecimal digits only otherwise: for other controls and for halves without a partner. */
  function Written(s: Utf16, k: int): Utf16
    requires 0 <= k < |s|
  {
    var c := s[k];
    if c in LETTERS then [0x5C, LETTERS[c]]
    else if 0x20 <= c && (!(0xD800 <= c <= 0xDFFF) || InPair(s, k)) then [c]
    else [0x5C, 0x75, HEX[c / 4096], HEX[c / 256 % 16], HEX[c / 16 % 16], HEX[c % 16]]
  }

  function WrittenFrom(s: Utf16, at: nat): Utf16
    requires at <= |s|
    decreases |s| - at
  {
    if at == |s| then [] else Written(s, at) + WrittenFrom(s, at + 1)
  }

  /** A string is its units, each written as it must be, between quotes. */
  lemma StringText(s: Utf16)
    ensures Print(Str(s)) == [0x22] + WrittenFrom(s, 0) + [0x22]
  {
    EscapeFrom(s, 0);
    assert s[0..] == s;
  }

  lemma HexDigitIs(d: CodeUnit)
    requires d < 16
    ensures HexDigit(d) == HEX[d]
  {
  }

  lemma UnitText(s: Utf16, k: nat)
    requires k < |s| && !InPair(s, k)
    ensures EscapeUnit(s[k]) == Written(s, k)
  {
    hide HexDigit;
    var c := s[k];
    HexDigitIs(c / 0x1000);
    HexDigitIs(c / 0x100 % 16);
    HexDigitIs(c / 0x10 % 16);
    HexDigitIs(c % 16);
  }

  lemma PairText(s: Utf16, k: nat)
    requires k < |s| && Paired(s[k..])
    ensures k + 1 < |s| && Written(s, k) == [s[k]] && Written(s, k + 1) == [s[k + 1]]
  {
  }

  lemma PairFirst(s: Utf16, at: nat)
    requires at < |s| && Paired(s[at..]) && Escape(s[at + 2..]) == WrittenFrom(s, at + 2)
    ensures Escape(s[at..]) == WrittenFrom(s, at)
  {
    hide Escape, Written, WrittenFrom;
    PairText(s, at);
    PairEscaped(s[at..]);
    TwoWritten(s, at);
    var pair, rest := s[at..][..2], WrittenFrom(s, at + 2);
    assert s[at..][2..] == s[at + 2..];
    assert pair == [s[at]] + [s[at + 1]];
  }

  lemma PairEscaped(t: Utf16)
    requires Paired(t)
    ensures Escape(t) == t[..2] + Escape(t[2..])
  {
  }

  lemma TwoWritten(s: Utf16, at: nat)
    requires at + 2 <= |s|
    ensures WrittenFrom(s, at) == Written(s, at) + Written(s, at + 1) + WrittenFrom(s, at + 2)
  {
    hide Written;
    assert WrittenFrom(s, at) == Written(s, at) + (Written(s, at + 1) + WrittenFrom(s, at + 2));
  }

  lemma UnitFirst(s: Utf16, at: nat)
    requires at < |s| && !Paired(s[at..]) && !InPair(s, at) && Escape(s[at + 1..]) == WrittenFrom(s, at + 1)
    ensures Escape(s[at..]) == WrittenFrom(s, at)
  {
    hide EscapeUnit, Written;
    UnitText(s, at);
    assert s[at..][1..] == s[at + 1..];
  }

  lemma {:induction false} EscapeFrom(s: Utf16, at: nat)
    requires at <= |s|
    requires 0 < at < |s| ==> !(Leading(s[at - 1]) && Trailing(s[at]))
    ensures Escape(s[at..]) == WrittenFrom(s, at)
    decreases |s| - at
  {
    hide EscapeUnit, Written;
    if at == |s| {
    } else if Paired(s[at..]) {
      EscapeFrom(s, at + 2);
      PairFirst(s, at);
    } else {
      EscapeFrom(s, at + 1);
      UnitFirst(s, at);
    }
  }

  // ----- numbers and words

  function Value(digits: Utf16): int {
    if digits == [] then 0 else 10 * Value(digits[..|digits| - 1]) + (digits[|digits| - 1] as int - 0x30)
  }

  /** Digits that count to n, without a zero in front of others. */
  predicate Decimal(digits: Utf16, n: nat) {
    && digits != [] && (forall k :: 0 <= k < |digits| ==> 0x30 <= digits[k] <= 0x39)
    && (|digits| > 1 ==> digits[0] != 0x30) && Value(digits) == n
  }

  /** A number is its decimal digits, after a minus sign if it is negative. */
  lemma NumberText(n: int)
    ensures var t := Print(Num(n));
            if n < 0 then t != [] && t[0] == 0x2D && Decimal(t[1..], -n) else Decimal(t, n)
  {
    DigitsAreDecimal(if n < 0 then -n else n);
    assert n < 0 ==> ([MINUS] + Digits(-n))[1..] == Digits(-n);
  }

  lemma {:induction false} DigitsAreDecimal(n: nat)
    ensures Decimal(Digits(n), n)
    ensures n > 0 ==> Digits(n)[0] != 0x30
  {
    if n < 10 {
      assert Digits(n)[..0] == [];
    } else {
      DigitsAreDecimal(n / 10);
      assert Digits(n)[..|Digits(n)| - 1] == Digits(n / 10);
    }
  }

  lemma WordText()
    ensures Print(Null) == Ascii("null") && Print(Bool(true)) == Ascii("true") && Print(Bool(false)) == Ascii("false")
  {
  }

  // ----- arrays and objects

  lemma {:induction false} JoinLast(parts: seq<Utf16>, last: Utf16)
    requires parts != []
    ensures Join(parts + [last]) == Join(parts) + [0x2C] + last
  {
    if |parts| == 1 {
      assert (parts + [last])[1..] == [last];
    } else {
      JoinLast(parts[1..], last);
      assert (parts + [last])[1..] == parts[1..] + [last];
    }
  }

  /** An array is its items' text between brackets, a comma before each item but the first. */
  lemma ArrayText(items: seq<Json>, item: Json)
    ensures Print(Arr([])) == Ascii("[]")
    ensures Print(Arr([item])) == Ascii("[") + Print(item) + Ascii("]")
    ensures items != [] ==>
              var t := Print(Arr(items));
              t != [] && Print(Arr(items + [item])) == t[..|t| - 1] + Ascii(",") + Print(item) + Ascii("]")
  {
    hide Print;
    assert PrintAll([]) == [] && PrintAll([item]) == [Print(item)];
    assert PrintAll(items + [item]) == PrintAll(items) + [Print(item)];
    PrintAllIs([]);
    PrintAllIs([item]);
    PrintAllIs(items);
    PrintAllIs(items + [item]);
    Enclosed(0x5B, PrintAll(items), Print(item), 0x5D);
  }

  /** What adding a part to a list between delimiters does to its text. */
  lemma Enclosed(open: CodeUnit, parts: seq<Utf16>, last: Utf16, close: CodeUnit)
    ensures var t := [open] + Join(parts) + [close];
            parts != [] ==>
              [open] + Join(parts + [last]) + [close] == t[..|t| - 1] + Ascii(",") + last + [close]
  {
    if parts != [] {
      JoinLast(parts, last);
      Closed(open, Join(parts), last, close);
    }
  }

  lemma Closed(open: CodeUnit, inside: Utf16, last: Utf16, close: CodeUnit)
    ensures var t := [open] + inside + [close];
            [open] + (inside + [0x2C] + last) + [close] == t[..|t| - 1] + Ascii(",") + last + [close]
  {
    assert ([open] + inside + [close])[..1 + |inside|] == [open] + inside;
    assert Ascii(",") == [0x2C];
  }

  lemma PrintAllIs(items: seq<Json>)
    ensures Print(Arr(items)) == [0x5B] + Join(PrintAll(items)) + [0x5D]
  {
    assert PrintAll(items) == seq(|items|, i requires 0 <= i < |items| => Print(items[i]));
  }

  /** The text of one field. */
  function FieldText(field: Field): Utf16 {
    Print(Str(field.key)) + Ascii(":") + Print(field.value)
  }

  /** An object is its fields' text between braces, a comma before each field but the first. */
  lemma ObjectText(fields: seq<Field>, field: Field)
    ensures Print(Obj([])) == Ascii("{}")
    ensures Print(Obj([field])) == Ascii("{") + FieldText(field) + Ascii("}")
    ensures fields != [] ==>
              var t := Print(Obj(fields));
              t != [] && Print(Obj(fields + [field])) == t[..|t| - 1] + Ascii(",") + FieldText(field) + Ascii("}")
  {
    hide Print, FieldText;
    FieldTextIs(field);
    assert PrintFields([]) == [] && PrintFields([field]) == [PrintField(field)];
    assert PrintFields(fields + [field]) == PrintFields(fields) + [PrintField(field)];
    PrintFieldsIs([]);
    PrintFieldsIs([field]);
    PrintFieldsIs(fields);
    PrintFieldsIs(fields + [field]);
    Enclosed(0x7B, PrintFields(fields), PrintField(field), 0x7D);
  }

  lemma FieldTextIs(field: Field)
    ensures PrintField(field) == FieldText(field)
  {
    assert Ascii(":") == [COLON];
  }

  lemma PrintFieldsIs(fields: seq<Field>)
    ensures Print(Obj(fields)) == [0x7B] + Join(PrintFields(fields)) + [0x7D]
  {
    assert PrintFields(fields)
        == seq(|fields|, i requires 0 <= i < |fields| => Quote(fields[i].key) + [COLON] + Print(fields[i].value));
  }
}
