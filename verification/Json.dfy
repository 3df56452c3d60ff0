/** Canonical JSON text, and a reader that undoes it. */
module Json {
  // Keys are sorted by UTF-16 code unit, strings escaped as JSON.stringify escapes them, and there
  // is no white space. The reader shows that the text determines the value up to the order in
  // which objects hold their keys.

  import opened Results
  import opened Sorting
  import opened Text

  /** A JSON value; an object lists its keys in the order the program holds them. */
  datatype Json =
    | Null
    | Bool(truth: bool)
    | Num(number: int)
    | Str(text: Utf16)
    | Arr(items: seq<Json>)
    | Obj(fields: seq<Field>)

  datatype Field = Field(key: Utf16, value: Json)

  predicate DistinctKeys(fields: seq<Field>) {
    forall i, j :: 0 <= i < j < |fields| ==> fields[i].key != fields[j].key
  }

  /** No object holds a key twice, at any depth. */
  predicate WellFormed(j: Json) {
    match j
    case Arr(items) => forall i :: 0 <= i < |items| ==> WellFormed(items[i])
    case Obj(fields) => DistinctKeys(fields) && forall i :: 0 <= i < |fields| ==> WellFormed(fields[i].value)
    case _ => true
  }

  // ----- text of strings and numbers

  const QUOTE: CodeUnit := 0x22
  const COMMA: CodeUnit := 0x2C
  const MINUS: CodeUnit := 0x2D
  const COLON: CodeUnit := 0x3A
  const BACKSLASH: CodeUnit := 0x5C
  const OPEN_BRACKET: CodeUnit := 0x5B
  const CLOSE_BRACKET: CodeUnit := 0x5D
  const OPEN_BRACE: CodeUnit := 0x7B
  const CLOSE_BRACE: CodeUnit := 0x7D
  const NEWLINE: CodeUnit := 0x0A
  const NULL_TEXT: Utf16 := [0x6E, 0x75, 0x6C, 0x6C]
  const TRUE_TEXT: Utf16 := [0x74, 0x72, 0x75, 0x65]
  const FALSE_TEXT: Utf16 := [0x66, 0x61, 0x6C, 0x73, 0x65]

  function HexDigit(d: CodeUnit): CodeUnit
    requires d < 16
  {
    if d < 10 then 0x30 + d else 0x61 + (d - 10)
  }

  function HexValue(c: CodeUnit): (r: Option<CodeUnit>)
    ensures r.Some? ==> r.value < 16
  {
    if 0x30 <= c <= 0x39 then Some(c - 0x30) else if 0x61 <= c <= 0x66 then Some(c - 0x61 + 10) else None
  }

  /** `\uxxxx` in lower-case hexadecimal. */
  function UnicodeEscape(c: CodeUnit): Utf16 {
    [BACKSLASH, 0x75, HexDigit(c / 0x1000), HexDigit(c / 0x100 % 16), HexDigit(c / 0x10 % 16), HexDigit(c % 16)]
  }

  /** The letter after the backslash, for the units that have a short escape. */
  function ShortEscape(c: CodeUnit): Option<CodeUnit> {
    if c == QUOTE || c == BACKSLASH then Some(c)
    else if c == 0x08 then Some(0x62)
    else if c == 0x09 then Some(0x74)
    else if c == 0x0A then Some(0x6E)
    else if c == 0x0C then Some(0x66)
    else if c == 0x0D then Some(0x72)
    else None
  }

  function ShortMeaning(c: CodeUnit): Option<CodeUnit> {
    if c == QUOTE || c == BACKSLASH then Some(c)
    else if c == 0x62 then Some(0x08)
    else if c == 0x74 then Some(0x09)
    else if c == 0x6E then Some(0x0A)
    else if c == 0x66 then Some(0x0C)
    else if c == 0x72 then Some(0x0D)
    else None
  }

  /** One unit that stands alone: not the first half of a surrogate pair. */
  function EscapeUnit(c: CodeUnit): Utf16 {
    if ShortEscape(c).Some? then [BACKSLASH, ShortEscape(c).value]
    else if c < 0x20 || Leading(c) || Trailing(c) then UnicodeEscape(c)
    else [c]
  }

  /** Surrogate pairs are copied; a surrogate without its partner is escaped. */
  function Escape(s: Utf16): Utf16 {
    if s == [] then []
    else if Paired(s) then s[..2] + Escape(s[2..])
    else EscapeUnit(s[0]) + Escape(s[1..])
  }

  function Quote(s: Utf16): Utf16 {
    [QUOTE] + Escape(s) + [QUOTE]
  }

  function Digits(n: nat): (r: Utf16)
    ensures |r| > 0
  {
    if n < 10 then [0x30 + n as CodeUnit] else Digits(n / 10) + [0x30 + (n % 10) as CodeUnit]
  }

  function PrintNumber(n: int): Utf16 {
    if n < 0 then [MINUS] + Digits(-n) else Digits(n)
  }

  // ----- canonical text

  /** `parts.join(',')` */
  function Join(parts: seq<Utf16>): Utf16 {
    if parts == [] then []
    else if |parts| == 1 then parts[0]
    else parts[0] + [COMMA] + Join(parts[1..])
  }

  /** The text of a value whose objects hold their keys in the order they are to be written. */
  function Print(j: Json): Utf16 {
    match j
    case Null => NULL_TEXT
    case Bool(truth) => if truth then TRUE_TEXT else FALSE_TEXT
    case Num(n) => PrintNumber(n)
    case Str(s) => Quote(s)
    case Arr(items) =>
      [OPEN_BRACKET] + Join(seq(|items|, i requires 0 <= i < |items| => Print(items[i]))) + [CLOSE_BRACKET]
    case Obj(fields) =>
      [OPEN_BRACE]
      + Join(seq(|fields|, i requires 0 <= i < |fields| => Quote(fields[i].key) + [COLON] + Print(fields[i].value)))
      + [CLOSE_BRACE]
  }

  function PrintAll(items: seq<Json>): (r: seq<Utf16>)
    ensures |r| == |items|
  {
    seq(|items|, i requires 0 <= i < |items| => Print(items[i]))
  }

  function PrintField(f: Field): Utf16 {
    Quote(f.key) + [COLON] + Print(f.value)
  }

  function PrintFields(fields: seq<Field>): (r: seq<Utf16>)
    ensures |r| == |fields|
  {
    seq(|fields|, i requires 0 <= i < |fields| => PrintField(fields[i]))
  }

  predicate KeyAtMost(x: Field, y: Field) {
    AtMost(x.key, y.key)
  }

  /** The value with every object's keys sorted. */
  function Normal(j: Json): Json {
    match j
    case Arr(items) => Arr(seq(|items|, i requires 0 <= i < |items| => Normal(items[i])))
    case Obj(fields) =>
      Obj(Sort(seq(|fields|, i requires 0 <= i < |fields| => Field(fields[i].key, Normal(fields[i].value))), KeyAtMost))
    case _ => j
  }

  function NormalFields(fields: seq<Field>): (r: seq<Field>)
    ensures |r| == |fields|
    ensures forall i :: 0 <= i < |r| ==> r[i] == Field(fields[i].key, Normal(fields[i].value))
  {
    seq(|fields|, i requires 0 <= i < |fields| => Field(fields[i].key, Normal(fields[i].value)))
  }

  function Canonical(j: Json): Utf16 {
    Print(Normal(j))
  }

  // ----- reading

  datatype Parsed<+T> = Parsed(value: T, rest: Utf16)

  function FourHexDigits(a: CodeUnit, b: CodeUnit, c: CodeUnit, d: CodeUnit): Option<CodeUnit> {
    match (HexValue(a), HexValue(b), HexValue(c), HexValue(d))
    case (Some(a), Some(b), Some(c), Some(d)) => Some(((a * 16 + b) * 16 + c) * 16 + d)
    case _ => None
  }

  /** What a text that begins with an escaped or plain unit says, and what follows it. */
  function ReadUnit(t: Utf16): (r: Option<Parsed<CodeUnit>>)
    requires t != []
    ensures r.Some? ==> |r.value.rest| < |t|
  {
    if t[0] != BACKSLASH then Some(Parsed(t[0], t[1..]))
    else if |t| >= 6 && t[1] == 0x75 then
      match FourHexDigits(t[2], t[3], t[4], t[5])
      case Some(c) => Some(Parsed(c, t[6..]))
      case None => None
    else if |t| >= 2 then
      match ShortMeaning(t[1])
      case Some(c) => Some(Parsed(c, t[2..]))
      case None => None
    else None
  }

  /** The rest of a string literal, up to and past its closing quote. */
  function ReadString(t: Utf16): (r: Option<Parsed<Utf16>>)
    ensures r.Some? ==> |r.value.rest| < |t|
    decreases |t|
  {
    if t == [] then None
    else if t[0] == QUOTE then Some(Parsed([], t[1..]))
    else
      match ReadUnit(t)
      case None => None
      case Some(unit) =>
        match ReadString(unit.rest)
        case None => None
        case Some(more) => Some(Parsed([unit.value] + more.value, more.rest))
  }

  predicate StartsWithDigit(t: Utf16) {
    t != [] && 0x30 <= t[0] <= 0x39
  }

  function ReadDigits(t: Utf16, read: nat): (r: Parsed<nat>)
    ensures |r.rest| <= |t|
    decreases |t|
  {
    if StartsWithDigit(t) then ReadDigits(t[1..], read * 10 + (t[0] - 0x30) as nat) else Parsed(read, t)
  }

  function Read(t: Utf16): (r: Option<Parsed<Json>>)
    ensures r.Some? ==> |r.value.rest| < |t|
    decreases |t|, 0
  {
    if t == [] then None
    else if t[0] == QUOTE then
      match ReadString(t[1..])
      case Some(s) => Some(Parsed(Str(s.value), s.rest))
      case None => None
    else if t[0] == OPEN_BRACKET then
      if |t| >= 2 && t[1] == CLOSE_BRACKET then Some(Parsed(Arr([]), t[2..]))
      else
        match ReadItems(t[1..])
        case Some(a) => Some(Parsed(Arr(a.value), a.rest))
        case None => None
    else if t[0] == OPEN_BRACE then
      if |t| >= 2 && t[1] == CLOSE_BRACE then Some(Parsed(Obj([]), t[2..]))
      else
        match ReadFields(t[1..])
        case Some(o) => Some(Parsed(Obj(o.value), o.rest))
        case None => None
    else if t[0] == MINUS then
      if StartsWithDigit(t[1..]) then var n: Parsed<int> := ReadDigits(t[1..], 0); Some(Parsed(Num(-n.value), n.rest))
      else None
    else if StartsWithDigit(t) then
      var n := ReadDigits(t[1..], (t[0] - 0x30) as nat); Some(Parsed(Num(n.value), n.rest))
    else if NULL_TEXT <= t then Some(Parsed(Null, t[4..]))
    else if TRUE_TEXT <= t then Some(Parsed(Bool(true), t[4..]))
    else if FALSE_TEXT <= t then Some(Parsed(Bool(false), t[5..]))
    else None
  }

  function ReadItems(t: Utf16): (r: Option<Parsed<seq<Json>>>)
    ensures r.Some? ==> |r.value.rest| < |t|
    decreases |t|, 1
  {
    match Read(t)
    case None => None
    case Some(first) =>
      if first.rest == [] then None
      else if first.rest[0] == CLOSE_BRACKET then Some(Parsed([first.value], first.rest[1..]))
      else if first.rest[0] == COMMA then
        match ReadItems(first.rest[1..])
        case None => None
        case Some(more) => Some(Parsed([first.value] + more.value, more.rest))
      else None
  }

  function ReadField(t: Utf16): (r: Option<Parsed<Field>>)
    ensures r.Some? ==> |r.value.rest| < |t|
    decreases |t|, 1
  {
    if t == [] || t[0] != QUOTE then None
    else
      match ReadString(t[1..])
      case None => None
      case Some(key) =>
        if key.rest == [] || key.rest[0] != COLON then None
        else
          match Read(key.rest[1..])
          case None => None
          case Some(value) => Some(Parsed(Field(key.value, value.value), value.rest))
  }

  function ReadFields(t: Utf16): (r: Option<Parsed<seq<Field>>>)
    ensures r.Some? ==> |r.value.rest| < |t|
    decreases |t|, 2
  {
    match ReadField(t)
    case None => None
    case Some(first) =>
      if first.rest == [] then None
      else if first.rest[0] == CLOSE_BRACE then Some(Parsed([first.value], first.rest[1..]))
      else if first.rest[0] == COMMA then
        match ReadFields(first.rest[1..])
        case None => None
        case Some(more) => Some(Parsed([first.value] + more.value, more.rest))
      else None
  }

  /** The value a whole text stands for. */
  function Parse(t: Utf16): Option<Json> {
    match Read(t)
    case Some(read) => if read.rest == [] then Some(read.value) else None
    case None => None
  }

  // ----- reading undoes printing

  lemma HexRoundTrip(d: CodeUnit)
    requires d < 16
    ensures HexValue(HexDigit(d)) == Some(d)
  {
  }

  lemma HexDigitsOf(c: int)
    requires 0 <= c
    ensures ((c / 0x1000 * 16 + c / 0x100 % 16) * 16 + c / 0x10 % 16) * 16 + c % 16 == c
  {
    assert c / 0x10 / 16 == c / 0x100 && c / 0x100 / 16 == c / 0x1000;
  }

  lemma FourHexRoundTrip(c: CodeUnit)
    ensures FourHexDigits(HexDigit(c / 0x1000), HexDigit(c / 0x100 % 16), HexDigit(c / 0x10 % 16), HexDigit(c % 16))
            == Some(c)
  {
    hide HexValue, HexDigit;
    HexRoundTrip(c / 0x1000);
    HexRoundTrip(c / 0x100 % 16);
    HexRoundTrip(c / 0x10 % 16);
    HexRoundTrip(c % 16);
    HexDigitsOf(c as int);
  }

  lemma ReadEscapedUnit(c: CodeUnit, rest: Utf16)
    ensures ReadUnit(EscapeUnit(c) + rest) == Some(Parsed(c, rest))
    ensures EscapeUnit(c)[0] != QUOTE
  {
    hide HexDigit, FourHexDigits;
    var t := EscapeUnit(c) + rest;
    if ShortEscape(c).Some? {
      assert t[2..] == rest;
    } else if c < 0x20 || Leading(c) || Trailing(c) {
      assert t[6..] == rest;
      FourHexRoundTrip(c);
    } else {
      assert t[1..] == rest;
    }
  }

  lemma ReadUnitThenString(t: Utf16, unit: CodeUnit, more: Utf16, s: Utf16, rest: Utf16)
    requires t != [] && t[0] != QUOTE && ReadUnit(t) == Some(Parsed(unit, more))
    requires ReadString(more) == Some(Parsed(s, rest))
    ensures ReadString(t) == Some(Parsed([unit] + s, rest))
  {
    hide ReadUnit;
  }

  lemma ReadStringAfterUnit(c: CodeUnit, more: Utf16, s: Utf16, rest: Utf16)
    requires ReadString(more) == Some(Parsed(s, rest))
    ensures ReadString(EscapeUnit(c) + more) == Some(Parsed([c] + s, rest))
  {
    hide EscapeUnit, ReadUnit;
    ReadEscapedUnit(c, more);
    ReadUnitThenString(EscapeUnit(c) + more, c, more, s, rest);
  }

  lemma ReadStringAfterPlain(c: CodeUnit, more: Utf16, s: Utf16, rest: Utf16)
    requires ReadString(more) == Some(Parsed(s, rest)) && c != BACKSLASH && c != QUOTE
    ensures ReadString([c] + more) == Some(Parsed([c] + s, rest))
  {
    assert ([c] + more)[1..] == more;
    ReadUnitThenString([c] + more, c, more, s, rest);
  }

  lemma ReadStringEnd(rest: Utf16)
    ensures ReadString(Escape([]) + [QUOTE] + rest) == Some(Parsed([], rest))
  {
    assert (Escape([]) + [QUOTE] + rest)[1..] == rest;
  }

  lemma {:induction false} ReadEscaped(s: Utf16, rest: Utf16)
    ensures ReadString(Escape(s) + [QUOTE] + rest) == Some(Parsed(s, rest))
    decreases |s|
  {
    hide ReadString, ReadUnit, EscapeUnit;
    if s == [] {
      ReadStringEnd(rest);
    } else if Paired(s) {
      var more := Escape(s[2..]) + [QUOTE] + rest;
      ReadEscaped(s[2..], rest);
      ReadStringAfterPlain(s[1], more, s[2..], rest);
      ReadStringAfterPlain(s[0], [s[1]] + more, [s[1]] + s[2..], rest);
      assert Escape(s) + [QUOTE] + rest == [s[0]] + ([s[1]] + more);
      assert [s[0]] + ([s[1]] + s[2..]) == s;
    } else {
      var more := Escape(s[1..]) + [QUOTE] + rest;
      ReadEscaped(s[1..], rest);
      ReadStringAfterUnit(s[0], more, s[1..], rest);
      assert Escape(s) + [QUOTE] + rest == EscapeUnit(s[0]) + more;
      assert [s[0]] + s[1..] == s;
    }
  }

  lemma ReadQuoted(s: Utf16, rest: Utf16)
    ensures Quote(s) + rest != [] && (Quote(s) + rest)[0] == QUOTE
    ensures ReadString((Quote(s) + rest)[1..]) == Some(Parsed(s, rest))
  {
    assert (Quote(s) + rest)[1..] == Escape(s) + [QUOTE] + rest;
    ReadEscaped(s, rest);
  }

  lemma ReadOneDigit(digit: nat, rest: Utf16, read: nat)
    requires digit < 10
    ensures StartsWithDigit([0x30 + digit as CodeUnit] + rest)
    ensures ReadDigits([0x30 + digit as CodeUnit] + rest, read) == ReadDigits(rest, read * 10 + digit)
  {
    var t := [0x30 + digit as CodeUnit] + rest;
    assert t[1..] == rest && (t[0] - 0x30) as nat == digit;
  }

  lemma {:induction false} ReadPrintedDigits(n: nat, rest: Utf16)
    ensures StartsWithDigit(Digits(n) + rest)
    ensures ReadDigits(Digits(n) + rest, 0) == ReadDigits(rest, n)
  {
    hide ReadDigits;
    ReadOneDigit(n % 10, rest, n / 10);
    if n >= 10 {
      var last := 0x30 + (n % 10) as CodeUnit;
      ReadPrintedDigits(n / 10, [last] + rest);
      assert Digits(n) + rest == Digits(n / 10) + ([last] + rest);
    }
  }

  /** Digits stand for a number, after a minus sign for its opposite. */
  lemma ReadUnsigned(t: Utf16)
    requires StartsWithDigit(t)
    ensures var n: Parsed<int> := ReadDigits(t, 0);
            && Read(t) == Some(Parsed(Num(n.value), n.rest))
            && Read([MINUS] + t) == Some(Parsed(Num(-n.value), n.rest))
  {
    var first := (t[0] - 0x30) as nat;
    assert ReadDigits(t, 0) == ReadDigits(t[1..], 0 * 10 + first);
    assert ([MINUS] + t)[1..] == t;
    hide ReadDigits;
  }

  lemma ReadPrintedNumber(n: int, rest: Utf16)
    requires !StartsWithDigit(rest)
    ensures Read(PrintNumber(n) + rest) == Some(Parsed(Num(n), rest))
  {
    hide Read, ReadDigits, Digits;
    var digits := Digits(if n < 0 then -n else n);
    ReadPrintedDigits(if n < 0 then -n else n, rest);
    NoMoreDigits(rest, if n < 0 then -n else n);
    ReadUnsigned(digits + rest);
    assert n < 0 ==> PrintNumber(n) + rest == [MINUS] + (digits + rest);
  }

  lemma NoMoreDigits(rest: Utf16, read: nat)
    requires !StartsWithDigit(rest)
    ensures ReadDigits(rest, read) == Parsed(read, rest)
  {
  }

  /** A list of texts, separated by commas and closed, begins with the first of them. */
  lemma JoinStep(parts: seq<Utf16>, close: CodeUnit, rest: Utf16)
    requires parts != []
    ensures Join(parts) + [close] + rest
            == parts[0] + (if |parts| == 1 then [close] + rest else [COMMA] + (Join(parts[1..]) + [close] + rest))
  {
    if |parts| == 1 {
      assert parts[0] + [close] + rest == parts[0] + ([close] + rest);
    } else {
      Reassociate(parts[0], [COMMA], Join(parts[1..]), [close], rest);
    }
  }

  lemma Reassociate(a: Utf16, b: Utf16, c: Utf16, d: Utf16, e: Utf16)
    ensures a + b + c + d + e == a + (b + (c + d + e))
  {
  }

  /** The first unit of a value's text: no value begins like the end of an array. */
  lemma PrintBegins(j: Json)
    ensures Print(j) != [] && Print(j)[0] != CLOSE_BRACKET
  {
    if j.Num? {
      ReadPrintedDigits(if j.number < 0 then -j.number else j.number, []);
    }
  }

  lemma ReadPrintedBool(truth: bool, rest: Utf16)
    ensures Read(Print(Bool(truth)) + rest) == Some(Parsed(Bool(truth), rest))
  {
    var t := Print(Bool(truth)) + rest;
    if truth {
      assert t[4..] == rest && TRUE_TEXT <= t;
    } else {
      assert t[5..] == rest && FALSE_TEXT <= t;
    }
  }

  lemma ReadPrintedString(s: Utf16, rest: Utf16)
    ensures Read(Print(Str(s)) + rest) == Some(Parsed(Str(s), rest))
  {
    hide Quote, ReadString;
    ReadQuoted(s, rest);
  }

  lemma ReadArray(body: Utf16, items: seq<Json>, rest: Utf16)
    requires body != [] && body[0] != CLOSE_BRACKET && ReadItems(body) == Some(Parsed(items, rest))
    ensures Read([OPEN_BRACKET] + body) == Some(Parsed(Arr(items), rest))
  {
    assert ([OPEN_BRACKET] + body)[1..] == body;
    hide ReadItems;
  }

  lemma ReadObject(body: Utf16, fields: seq<Field>, rest: Utf16)
    requires body != [] && body[0] != CLOSE_BRACE && ReadFields(body) == Some(Parsed(fields, rest))
    ensures Read([OPEN_BRACE] + body) == Some(Parsed(Obj(fields), rest))
  {
    assert ([OPEN_BRACE] + body)[1..] == body;
    hide ReadFields;
  }

  lemma ReadLastItem(t: Utf16, item: Json, rest: Utf16)
    requires Read(t) == Some(Parsed(item, [CLOSE_BRACKET] + rest))
    ensures ReadItems(t) == Some(Parsed([item], rest))
  {
    hide Read;
    assert ([CLOSE_BRACKET] + rest)[1..] == rest;
  }

  lemma ReadNextItem(t: Utf16, item: Json, more: Utf16, items: seq<Json>, rest: Utf16)
    requires Read(t) == Some(Parsed(item, [COMMA] + more))
    requires ReadItems(more) == Some(Parsed(items, rest))
    ensures ReadItems(t) == Some(Parsed([item] + items, rest))
  {
    hide Read;
    assert ([COMMA] + more)[1..] == more;
  }

  lemma ReadLastField(t: Utf16, f: Field, rest: Utf16)
    requires ReadField(t) == Some(Parsed(f, [CLOSE_BRACE] + rest))
    ensures ReadFields(t) == Some(Parsed([f], rest))
  {
    hide ReadField;
    assert ([CLOSE_BRACE] + rest)[1..] == rest;
  }

  lemma ReadNextField(t: Utf16, f: Field, more: Utf16, fields: seq<Field>, rest: Utf16)
    requires ReadField(t) == Some(Parsed(f, [COMMA] + more))
    requires ReadFields(more) == Some(Parsed(fields, rest))
    ensures ReadFields(t) == Some(Parsed([f] + fields, rest))
  {
    hide ReadField;
    assert ([COMMA] + more)[1..] == more;
  }

  lemma ReadKeyThenValue(key: Utf16, text: Utf16, value: Json, rest: Utf16)
    requires Read(text) == Some(Parsed(value, rest))
    ensures ReadField(Quote(key) + ([COLON] + text)) == Some(Parsed(Field(key, value), rest))
  {
    hide Quote, Read, ReadString;
    ReadQuoted(key, [COLON] + text);
    assert ([COLON] + text)[1..] == text;
  }

  /** Reading undoes printing, whatever follows: a number only ends where its digits do. */
  lemma {:induction false} ReadPrinted(j: Json, rest: Utf16)
    requires !StartsWithDigit(rest)
    ensures Read(Print(j) + rest) == Some(Parsed(j, rest))
    decreases j, 0
  {
    match j {
      case Null =>
        var t := Print(j) + rest;
        assert t[4..] == rest && NULL_TEXT <= t;
      case Bool(truth) => ReadPrintedBool(truth, rest);
      case Num(n) => ReadPrintedNumber(n, rest);
      case Str(s) => ReadPrintedString(s, rest);
      case Arr(items) => ReadPrintedArray(j, rest);
      case Obj(fields) => ReadPrintedObject(j, rest);
    }
  }

  lemma {:induction false} ReadPrintedArray(j: Json, rest: Utf16)
    requires j.Arr?
    ensures Read(Print(j) + rest) == Some(Parsed(j, rest))
    decreases j, 0, |j.items| + 1
  {
    hide Read, ReadItems, Join;
    assert Print(j) == [OPEN_BRACKET] + Join(PrintAll(j.items)) + [CLOSE_BRACKET];
    if j.items == [] {
      ReadEmpty(rest);
    } else {
      var body := Join(PrintAll(j.items)) + [CLOSE_BRACKET] + rest;
      ReadPrintedItems(j, 0, rest);
      assert j.items[0..] == j.items;
      PrintBegins(j.items[0]);
      JoinStep(PrintAll(j.items), CLOSE_BRACKET, rest);
      assert body[0] == Print(j.items[0])[0];
      ReadArray(body, j.items, rest);
      assert Print(j) + rest == [OPEN_BRACKET] + body;
    }
  }

  lemma ReadEmpty(rest: Utf16)
    ensures Read([OPEN_BRACKET] + Join([]) + [CLOSE_BRACKET] + rest) == Some(Parsed(Arr([]), rest))
    ensures Read([OPEN_BRACE] + Join([]) + [CLOSE_BRACE] + rest) == Some(Parsed(Obj([]), rest))
  {
    assert ([OPEN_BRACKET] + Join([]) + [CLOSE_BRACKET] + rest)[2..] == rest;
    assert ([OPEN_BRACE] + Join([]) + [CLOSE_BRACE] + rest)[2..] == rest;
  }

  lemma {:induction false} ReadPrintedObject(j: Json, rest: Utf16)
    requires j.Obj?
    ensures Read(Print(j) + rest) == Some(Parsed(j, rest))
    decreases j, 0, |j.fields| + 1
  {
    hide Read, ReadFields, Join;
    var fields := j.fields;
    assert PrintFields(fields)
        == seq(|fields|, i requires 0 <= i < |fields| => Quote(fields[i].key) + [COLON] + Print(fields[i].value));
    assert Print(j) == [OPEN_BRACE] + Join(PrintFields(j.fields)) + [CLOSE_BRACE];
    if j.fields == [] {
      ReadEmpty(rest);
    } else {
      var body := Join(PrintFields(j.fields)) + [CLOSE_BRACE] + rest;
      ReadPrintedFields(j, 0, rest);
      assert j.fields[0..] == j.fields;
      JoinStep(PrintFields(j.fields), CLOSE_BRACE, rest);
      assert body[0] == PrintField(j.fields[0])[0] == QUOTE;
      ReadObject(body, j.fields, rest);
      assert Print(j) + rest == [OPEN_BRACE] + body;
    }
  }

  lemma {:induction false} ReadPrintedItems(j: Json, k: nat, rest: Utf16)
    requires j.Arr? && k < |j.items|
    ensures ReadItems(Join(PrintAll(j.items[k..])) + [CLOSE_BRACKET] + rest) == Some(Parsed(j.items[k..], rest))
    decreases j, 0, |j.items| - k
  {
    hide Read, ReadItems, Join, Print;
    var items := j.items[k..];
    var t := Join(PrintAll(items)) + [CLOSE_BRACKET] + rest;
    JoinStep(PrintAll(items), CLOSE_BRACKET, rest);
    assert PrintAll(items)[1..] == PrintAll(items[1..]) && items[1..] == j.items[k + 1..];
    if k + 1 == |j.items| {
      ReadPrinted(j.items[k], [CLOSE_BRACKET] + rest);
      ReadLastItem(t, j.items[k], rest);
      assert [j.items[k]] == items;
    } else {
      var more := Join(PrintAll(items[1..])) + [CLOSE_BRACKET] + rest;
      ReadPrinted(j.items[k], [COMMA] + more);
      ReadPrintedItems(j, k + 1, rest);
      ReadNextItem(t, j.items[k], more, items[1..], rest);
      assert [j.items[k]] + items[1..] == items;
    }
  }

  lemma {:induction false} ReadPrintedField(f: Field, rest: Utf16)
    requires !StartsWithDigit(rest)
    ensures ReadField(PrintField(f) + rest) == Some(Parsed(f, rest))
    decreases f, 1
  {
    hide Quote, Print, Read, ReadField;
    ReadPrinted(f.value, rest);
    ReadKeyThenValue(f.key, Print(f.value) + rest, f.value, rest);
    assert PrintField(f) + rest == Quote(f.key) + ([COLON] + (Print(f.value) + rest));
  }

  lemma {:induction false} ReadPrintedFields(j: Json, k: nat, rest: Utf16)
    requires j.Obj? && k < |j.fields|
    ensures ReadFields(Join(PrintFields(j.fields[k..])) + [CLOSE_BRACE] + rest) == Some(Parsed(j.fields[k..], rest))
    decreases j, 0, |j.fields| - k
  {
    hide ReadField, ReadFields, Join, PrintField;
    var fields := j.fields[k..];
    var t := Join(PrintFields(fields)) + [CLOSE_BRACE] + rest;
    JoinStep(PrintFields(fields), CLOSE_BRACE, rest);
    assert PrintFields(fields)[1..] == PrintFields(fields[1..]) && fields[1..] == j.fields[k + 1..];
    if k + 1 == |j.fields| {
      ReadPrintedField(j.fields[k], [CLOSE_BRACE] + rest);
      ReadLastField(t, j.fields[k], rest);
      assert [j.fields[k]] == fields;
    } else {
      var more := Join(PrintFields(fields[1..])) + [CLOSE_BRACE] + rest;
      ReadPrintedField(j.fields[k], [COMMA] + more);
      ReadPrintedFields(j, k + 1, rest);
      ReadNextField(t, j.fields[k], more, fields[1..], rest);
      assert [j.fields[k]] + fields[1..] == fields;
    }
  }

  lemma ParsePrinted(j: Json)
    ensures Parse(Print(j)) == Some(j)
  {
    ReadPrinted(j, []);
    assert Print(j) + [] == Print(j);
  }

  // ----- what the text means

  /** A value with its objects read as finite maps. */
  datatype Meaning =
    | NullMeaning
    | BoolMeaning(truth: bool)
    | NumMeaning(number: int)
    | StrMeaning(text: Utf16)
    | ArrMeaning(items: seq<Meaning>)
    | ObjMeaning(members: map<Utf16, Meaning>)

  predicate HasKey(fields: seq<Field>, key: Utf16) {
    exists i :: 0 <= i < |fields| && fields[i].key == key
  }

  /** Where an object first holds a key. */
  function Place(fields: seq<Field>, key: Utf16): (i: nat)
    requires HasKey(fields, key)
    ensures i < |fields| && fields[i].key == key
  {
    if fields[0].key == key then 0
    else
      assert HasKey(fields[1..], key) by {
        var i :| 0 <= i < |fields| && fields[i].key == key;
        assert fields[1..][i - 1].key == key;
      }
      1 + Place(fields[1..], key)
  }

  function Keys(fields: seq<Field>): set<Utf16> {
    set i | 0 <= i < |fields| :: fields[i].key
  }

  ghost function Means(j: Json): Meaning {
    match j
    case Null => NullMeaning
    case Bool(truth) => BoolMeaning(truth)
    case Num(n) => NumMeaning(n)
    case Str(s) => StrMeaning(s)
    case Arr(items) => ArrMeaning(seq(|items|, i requires 0 <= i < |items| => Means(items[i])))
    case Obj(fields) =>
      ObjMeaning(map key | key in Keys(fields) && HasKey(fields, key) :: Means(fields[Place(fields, key)].value))
  }

  lemma PlaceOf(fields: seq<Field>, i: nat)
    requires DistinctKeys(fields) && i < |fields|
    ensures HasKey(fields, fields[i].key) && Place(fields, fields[i].key) == i
  {
    assert fields[i].key == fields[i].key;
    var p := Place(fields, fields[i].key);
    assert !(p < i) && !(i < p);
  }

  // ----- sorting keys keeps the meaning, and the meaning fixes the sorted value

  lemma KeysRank()
    ensures Ranks(KeyAtMost)
  {
    AtMostIsTotalOrder();
  }

  lemma {:induction false} DistinctKeysAppearOnce(fields: seq<Field>)
    requires DistinctKeys(fields)
    ensures forall f :: multiset(fields)[f] <= 1
  {
    if fields != [] {
      DistinctKeysAppearOnce(fields[1..]);
      assert fields == [fields[0]] + fields[1..];
      assert fields[0] !in fields[1..];
    }
  }

  lemma TwicePresent(s: seq<Field>, i: nat, j: nat)
    requires i < j < |s| && s[i] == s[j]
    ensures multiset(s)[s[i]] >= 2
  {
    assert s == s[..j] + [s[j]] + s[j + 1..];
    assert s[i] in s[..j];
  }

  lemma PermutationKeepsKeysDistinct(fields: seq<Field>, s: seq<Field>)
    requires DistinctKeys(fields) && multiset(s) == multiset(fields)
    ensures DistinctKeys(s)
  {
    DistinctKeysAppearOnce(fields);
    forall i, j | 0 <= i < j < |s| ensures s[i].key != s[j].key {
      if s[i] == s[j] {
        TwicePresent(s, i, j);
      } else {
        assert s[i] in multiset(fields) && s[j] in multiset(fields);
        assert s[i] in fields && s[j] in fields;
      }
    }
  }

  lemma SameElementsSameMultiset(s: seq<Field>, t: seq<Field>)
    requires DistinctKeys(s) && DistinctKeys(t)
    requires forall f :: f in s <==> f in t
    ensures multiset(s) == multiset(t)
  {
    DistinctKeysAppearOnce(s);
    DistinctKeysAppearOnce(t);
    forall f ensures multiset(s)[f] == multiset(t)[f] {
      assert f in multiset(s) <==> f in s;
      assert f in multiset(t) <==> f in t;
    }
  }

  lemma NormalObject(fields: seq<Field>)
    ensures Normal(Obj(fields)) == Obj(Sort(NormalFields(fields), KeyAtMost))
  {
    assert NormalFields(fields)
        == seq(|fields|, i requires 0 <= i < |fields| => Field(fields[i].key, Normal(fields[i].value)));
  }

  /** Sorting keys keeps values well formed and keeps what they mean. */
  lemma {:induction false} NormalKeepsMeaning(j: Json)
    requires WellFormed(j)
    ensures WellFormed(Normal(j)) && Means(Normal(j)) == Means(j)
  {
    match j {
      case Arr(items) =>
        forall i | 0 <= i < |items| ensures WellFormed(Normal(items[i])) && Means(Normal(items[i])) == Means(items[i]) {
          NormalKeepsMeaning(items[i]);
        }
      case Obj(fields) =>
        forall i | 0 <= i < |fields|
          ensures WellFormed(Normal(fields[i].value)) && Means(Normal(fields[i].value)) == Means(fields[i].value)
        {
          NormalKeepsMeaning(fields[i].value);
        }
        NormalObject(fields);
        SortedFieldsMean(fields, Sort(NormalFields(fields), KeyAtMost));
      case _ =>
    }
  }

  ghost predicate NormalMeans(fields: seq<Field>) {
    forall i :: 0 <= i < |fields| ==>
      WellFormed(Normal(fields[i].value)) && Means(Normal(fields[i].value)) == Means(fields[i].value)
  }

  lemma SortedFieldMeans(fields: seq<Field>, s: seq<Field>, p: nat)
    requires DistinctKeys(fields) && NormalMeans(fields) && p < |s|
    requires multiset(s) == multiset(NormalFields(fields))
    ensures WellFormed(s[p].value) && s[p].key in Keys(fields) && HasKey(fields, s[p].key)
    ensures Means(s[p].value) == Means(fields[Place(fields, s[p].key)].value)
  {
    hide Normal, Means, WellFormed;
    var normal := NormalFields(fields);
    assert s[p] in multiset(normal);
    var i :| 0 <= i < |normal| && normal[i] == s[p];
    PlaceOf(fields, i);
  }

  lemma PermutationKeepsKeys(fields: seq<Field>, s: seq<Field>)
    requires multiset(s) == multiset(NormalFields(fields))
    ensures Keys(s) == Keys(fields)
  {
    var normal := NormalFields(fields);
    forall key | key in Keys(fields) ensures key in Keys(s) {
      var i :| 0 <= i < |fields| && fields[i].key == key;
      assert normal[i] in multiset(s);
      assert normal[i] in s;
    }
    forall key | key in Keys(s) ensures key in Keys(fields) {
      var p :| 0 <= p < |s| && s[p].key == key;
      assert s[p] in multiset(normal);
      assert s[p] in normal;
    }
  }

  lemma SortedFieldsMean(fields: seq<Field>, s: seq<Field>)
    requires DistinctKeys(fields) && NormalMeans(fields)
    requires multiset(s) == multiset(NormalFields(fields))
    ensures WellFormed(Obj(s)) && Means(Obj(s)) == Means(Obj(fields))
  {
    hide Normal, NormalMeans, Place;
    PermutationKeepsKeysDistinct(NormalFields(fields), s);
    PermutationKeepsKeys(fields, s);
    forall p | 0 <= p < |s|
      ensures WellFormed(s[p].value) && HasKey(fields, s[p].key) && HasKey(s, s[p].key)
      ensures Place(s, s[p].key) == p
      ensures Means(s[p].value) == Means(fields[Place(fields, s[p].key)].value)
    {
      SortedFieldMeans(fields, s, p);
      PlaceOf(s, p);
    }
    var m := Means(Obj(s)).members;
    var n := Means(Obj(fields)).members;
    forall key | key in Keys(s) ensures key in m && key in n && m[key] == n[key] {
      var p :| 0 <= p < |s| && s[p].key == key;
    }
    assert m.Keys == n.Keys;
  }

  /** Values that mean the same are equal once their keys are sorted. */
  lemma {:induction false} MeaningFixesNormal(a: Json, b: Json)
    requires WellFormed(a) && WellFormed(b) && Means(a) == Means(b)
    ensures Normal(a) == Normal(b)
    decreases a
  {
    match a {
      case Arr(items) =>
        var m := Means(a).items;
        assert m == Means(b).items;
        forall i | 0 <= i < |items| ensures Normal(items[i]) == Normal(b.items[i]) {
          assert m[i] == Means(items[i]) == Means(b.items[i]);
          MeaningFixesNormal(items[i], b.items[i]);
        }
      case Obj(fields) =>
        forall i, k | 0 <= i < |fields| && 0 <= k < |b.fields|
                      && Means(fields[i].value) == Means(b.fields[k].value)
          ensures Normal(fields[i].value) == Normal(b.fields[k].value)
        {
          MeaningFixesNormal(fields[i].value, b.fields[k].value);
        }
        SameNormalFields(fields, b.fields);
        SameSort(NormalFields(fields), NormalFields(b.fields));
        NormalObject(fields);
        NormalObject(b.fields);
      case _ =>
    }
  }

  lemma FieldMeans(fields: seq<Field>, i: nat)
    requires DistinctKeys(fields) && i < |fields|
    ensures fields[i].key in Means(Obj(fields)).members
    ensures Means(Obj(fields)).members[fields[i].key] == Means(fields[i].value)
  {
    PlaceOf(fields, i);
  }

  lemma SameNormalFields(a: seq<Field>, b: seq<Field>)
    requires DistinctKeys(a) && DistinctKeys(b) && Means(Obj(a)) == Means(Obj(b))
    requires forall i, k :: 0 <= i < |a| && 0 <= k < |b| && Means(a[i].value) == Means(b[k].value)
                            ==> Normal(a[i].value) == Normal(b[k].value)
    ensures forall f :: f in NormalFields(a) <==> f in NormalFields(b)
  {
    var m := Means(Obj(a)).members;
    forall i | 0 <= i < |a| ensures NormalFields(a)[i] in NormalFields(b) {
      FieldMeans(a, i);
      assert a[i].key in m && HasKey(b, a[i].key);
      var k := Place(b, a[i].key);
      FieldMeans(b, k);
      assert NormalFields(b)[k] == NormalFields(a)[i];
    }
    forall k | 0 <= k < |b| ensures NormalFields(b)[k] in NormalFields(a) {
      FieldMeans(b, k);
      assert b[k].key in m && HasKey(a, b[k].key);
      var i := Place(a, b[k].key);
      FieldMeans(a, i);
      assert NormalFields(a)[i] == NormalFields(b)[k];
    }
  }

  lemma SameSort(s: seq<Field>, t: seq<Field>)
    requires DistinctKeys(s) && DistinctKeys(t) && forall f :: f in s <==> f in t
    ensures Sort(s, KeyAtMost) == Sort(t, KeyAtMost)
  {
    KeysRank();
    SameElementsSameMultiset(s, t);
    forall x, y | x in s && y in s && KeyAtMost(x, y) && KeyAtMost(y, x) ensures x == y {
      AtMostAntisymmetric(x.key, y.key);
    }
    SortOfPermutation(s, t, KeyAtMost);
  }

  // ----- main results

  /** Two values have the same canonical text exactly when they mean the same. */
  lemma CanonicalTextIsMeaning(a: Json, b: Json)
    requires WellFormed(a) && WellFormed(b)
    ensures Canonical(a) == Canonical(b) <==> Means(a) == Means(b)
  {
    if Canonical(a) == Canonical(b) {
      ParsePrinted(Normal(a));
      ParsePrinted(Normal(b));
      NormalKeepsMeaning(a);
      NormalKeepsMeaning(b);
    }
    if Means(a) == Means(b) {
      MeaningFixesNormal(a, b);
    }
  }

  /** Reading canonical text gives back a value of the same meaning, whose canonical text it is. */
  lemma CanonicalTextReadsBack(j: Json)
    requires WellFormed(j)
    ensures Parse(Canonical(j)).Some?
    ensures var read := Parse(Canonical(j)).value;
            WellFormed(read) && Means(read) == Means(j) && Canonical(read) == Canonical(j)
  {
    ParsePrinted(Normal(j));
    NormalKeepsMeaning(j);
    CanonicalTextIsMeaning(Normal(j), j);
  }

  /** In every object of the value, keys ascend by UTF-16 code unit. */
  predicate KeysAscend(j: Json) {
    match j
    case Arr(items) => forall i :: 0 <= i < |items| ==> KeysAscend(items[i])
    case Obj(fields) =>
      && (forall i, k :: 0 <= i < k < |fields| ==>
            fields[i].key != fields[k].key && AtMost(fields[i].key, fields[k].key))
      && (forall i :: 0 <= i < |fields| ==> KeysAscend(fields[i].value))
    case _ => true
  }

  lemma {:induction false} CanonicalKeysAscend(j: Json)
    requires WellFormed(j)
    ensures KeysAscend(Normal(j))
  {
    match j {
      case Arr(items) =>
        forall i | 0 <= i < |items| ensures KeysAscend(Normal(items[i])) {
          CanonicalKeysAscend(items[i]);
        }
      case Obj(fields) =>
        var normal := NormalFields(fields);
        var s := Sort(normal, KeyAtMost);
        forall i | 0 <= i < |fields| ensures KeysAscend(normal[i].value) {
          CanonicalKeysAscend(fields[i].value);
        }
        NormalObject(fields);
        KeysRank();
        SortSorts(normal, KeyAtMost);
        PermutationKeepsKeysDistinct(normal, s);
        forall p | 0 <= p < |s| ensures KeysAscend(s[p].value) {
          assert s[p] in multiset(normal);
          assert s[p] in normal;
        }
      case _ =>
    }
  }

  // ----- one line of text

  predicate Printable(t: Utf16) {
    forall i :: 0 <= i < |t| ==> t[i] >= 0x20
  }

  lemma {:induction false} EscapePrintable(s: Utf16)
    ensures Printable(Escape(s))
    decreases |s|
  {
    if s == [] {
    } else if Paired(s) {
      EscapePrintable(s[2..]);
    } else {
      EscapePrintable(s[1..]);
    }
  }

  lemma {:induction false} DigitsPrintable(n: nat)
    ensures Printable(Digits(n))
  {
    if n >= 10 {
      DigitsPrintable(n / 10);
    }
  }

  lemma {:induction false} JoinPrintable(parts: seq<Utf16>)
    requires forall i :: 0 <= i < |parts| ==> Printable(parts[i])
    ensures Printable(Join(parts))
  {
    if |parts| > 1 {
      JoinPrintable(parts[1..]);
    }
  }

  lemma {:induction false} PrintPrintable(j: Json)
    ensures Printable(Print(j))
  {
    match j {
      case Num(n) => DigitsPrintable(if n < 0 then -n else n);
      case Str(s) => EscapePrintable(s);
      case Arr(items) =>
        var parts := PrintAll(items);
        forall i | 0 <= i < |items| ensures Printable(parts[i]) {
          PrintPrintable(items[i]);
        }
        JoinPrintable(parts);
        assert Print(j) == [OPEN_BRACKET] + Join(parts) + [CLOSE_BRACKET];
      case Obj(fields) =>
        var parts := PrintFields(fields);
        forall i | 0 <= i < |fields| ensures Printable(parts[i]) {
          EscapePrintable(fields[i].key);
          PrintPrintable(fields[i].value);
        }
        JoinPrintable(parts);
        assert parts
            == seq(|fields|, i requires 0 <= i < |fields| => Quote(fields[i].key) + [COLON] + Print(fields[i].value));
        assert Print(j) == [OPEN_BRACE] + Join(parts) + [CLOSE_BRACE];
      case _ =>
    }
  }

  /** What a file holds: canonical text and a newline. A write cut short never leaves such a file,
      and the whole text never runs into a second line. */
  lemma TornTextUnreadable(j: Json, k: Json, cut: nat)
    requires cut <= |Canonical(j)|
    ensures (Canonical(j) + [NEWLINE])[..cut] != Canonical(k) + [NEWLINE]
  {
    PrintPrintable(Normal(j));
    assert Printable((Canonical(j) + [NEWLINE])[..cut]);
    assert (Canonical(k) + [NEWLINE])[|Canonical(k)|] == NEWLINE;
  }
}
