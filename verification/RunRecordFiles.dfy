/** The file of a run record as JSON text (`rhino-script-store.ts`, `write`), and that it takes exactly the bytes that
    `RunReserve.RecordBytes` counts. */
module RunRecordFiles {
  import opened Decimals
  import opened RunReserve
  import opened Wrappers

  // ----- Strings -----

  const QUOTE: Unit := 0x22
  const BACKSLASH: Unit := 0x5C

  function HexDigit(n: nat): (r: Unit)
    requires n < 16
    ensures 0x30 <= r <= 0x66
  {
    if n < 10 then '0' as int + n else 'a' as int + n - 10
  }

  /** The short escapes of JSON; 0 for all other units. */
  function Short(u: Unit): Unit {
    if u == QUOTE || u == BACKSLASH then u
    else if u == 8 then 'b' as int
    else if u == 9 then 't' as int
    else if u == 10 then 'n' as int
    else if u == 12 then 'f' as int
    else if u == 13 then 'r' as int
    else 0
  }

  function EscapeUnit(u: Unit): Text {
    if Short(u) != 0 then [BACKSLASH, Short(u)]
    else if u < 0x20 || Surrogate(u) then
      [BACKSLASH, 'u' as int, HexDigit(u / 0x1000), HexDigit(u / 0x100 % 16), HexDigit(u / 16 % 16), HexDigit(u % 16)]
    else [u]
  }

  /** The inside of a JSON string. */
  function Escape(text: Text): Text {
    if text == [] then []
    else if StartsWithPair(text) then text[..2] + Escape(text[2..])
    else EscapeUnit(text[0]) + Escape(text[1..])
  }

  function HexValue(u: Unit): nat {
    if '0' as int <= u <= '9' as int then u - '0' as int
    else if 'a' as int <= u <= 'f' as int then u - 'a' as int + 10
    else 0
  }

  function Long(u: Unit): Unit {
    if u == 'b' as int then 8
    else if u == 't' as int then 9
    else if u == 'n' as int then 10
    else if u == 'f' as int then 12
    else if u == 'r' as int then 13
    else u
  }

  /** Reading the inside of a JSON string. */
  function Unescape(text: Text): Text {
    if text == [] then []
    else if text[0] != BACKSLASH || |text| == 1 then [text[0]] + Unescape(text[1..])
    else if text[1] == 'u' as int && |text| >= 6 then
      var n := 0x1000 * HexValue(text[2]) + 0x100 * HexValue(text[3]) + 16 * HexValue(text[4]) + HexValue(text[5]);
      [if n < 0x1_0000 then n else 0] + Unescape(text[6..])
    else [Long(text[1])] + Unescape(text[2..])
  }

  lemma EscapedUnitReadsBack(u: Unit, rest: Text)
    ensures Unescape(EscapeUnit(u) + rest) == [u] + Unescape(rest)
  {
    var text := EscapeUnit(u) + rest;
    if Short(u) != 0 {
      assert text[0] == BACKSLASH && text[1] == Short(u) && text[2..] == rest;
    } else if u < 0x20 || Surrogate(u) {
      assert text[..6] == EscapeUnit(u) && text[6..] == rest;
      HexReadsBack(u);
    } else {
      assert text[0] == u && text[1..] == rest;
    }
  }

  lemma HexReadsBack(u: Unit)
    ensures 0x1000 * HexValue(HexDigit(u / 0x1000)) + 0x100 * HexValue(HexDigit(u / 0x100 % 16))
            + 16 * HexValue(HexDigit(u / 16 % 16)) + HexValue(HexDigit(u % 16)) == u
  {
    assert forall n: nat :: n < 16 ==> HexValue(HexDigit(n)) == n;
    assert u / 0x100 / 16 == u / 0x1000 && u / 16 / 16 == u / 0x100;
  }

  /** What is escaped is read back, lone surrogates and all. */
  lemma {:induction false} EscapedTextReadsBack(text: Text)
    ensures Unescape(Escape(text)) == text
  {
    if text == [] {
    } else if StartsWithPair(text) {
      EscapedTextReadsBack(text[2..]);
      var rest := Escape(text[2..]);
      assert (text[..2] + rest)[1..] == [text[1]] + rest && ([text[1]] + rest)[1..] == rest;
    } else {
      EscapedTextReadsBack(text[1..]);
      EscapedUnitReadsBack(text[0], Escape(text[1..]));
    }
  }

  // ----- Bytes -----

  type Byte = n: nat | n < 0x100

  /** UTF-8 (section 3 of RFC 3629) of one unit that is no part of a pair. */
  function UnitBytes(u: Unit): seq<Byte> {
    if u < 0x80 then [u]
    else if u < 0x800 then [0xC0 + u / 64, 0x80 + u % 64]
    else [0xE0 + u / 0x1000, 0x80 + u / 64 % 64, 0x80 + u % 64]
  }

  /** The number of the character that a pair stands for, counted from the first that needs a pair. */
  function PairNumber(high: Unit, low: Unit): (n: nat)
    requires High(high) && Low(low)
    ensures n < 0x10_0000
  {
    (high - 0xD800) * 0x400 + (low - 0xDC00)
  }

  function PairBytes(high: Unit, low: Unit): seq<Byte>
    requires High(high) && Low(low)
  {
    var n := 0x1_0000 + PairNumber(high, low);
    [0xF0 + n / 0x4_0000, 0x80 + n / 0x1000 % 64, 0x80 + n / 64 % 64, 0x80 + n % 64]
  }

  function Encode(text: Text): seq<Byte> {
    if text == [] then []
    else if StartsWithPair(text) then PairBytes(text[0], text[1]) + Encode(text[2..])
    else UnitBytes(text[0]) + Encode(text[1..])
  }

  function AsUnit(n: int): Unit {
    if 0 <= n < 0x1_0000 then n else 0
  }

  /** What a byte that is not the first of its character adds to it. */
  function More(b: Byte): int {
    b as int - 0x80
  }

  /** Reading the bytes: the first tells how many belong together. */
  function Decode(bytes: seq<Byte>): Text {
    if bytes == [] then []
    else
      var first := bytes[0] as int;
      if first < 0x80 then [AsUnit(first)] + Decode(bytes[1..])
      else if first < 0xE0 && |bytes| >= 2 then
        [AsUnit(64 * (first - 0xC0) + More(bytes[1]))] + Decode(bytes[2..])
      else if first < 0xF0 && |bytes| >= 3 then
        [AsUnit(0x1000 * (first - 0xE0) + 64 * More(bytes[1]) + More(bytes[2]))] + Decode(bytes[3..])
      else if |bytes| >= 4 then
        var n := 0x4_0000 * (first - 0xF0) + 0x1000 * More(bytes[1]) + 64 * More(bytes[2]) + More(bytes[3]);
        [AsUnit(0xD800 + (n - 0x1_0000) / 0x400), AsUnit(0xDC00 + (n - 0x1_0000) % 0x400)] + Decode(bytes[4..])
      else []
  }

  lemma UnitBytesReadBack(u: Unit, rest: seq<Byte>)
    ensures Decode(UnitBytes(u) + rest) == [u] + Decode(rest)
    ensures |UnitBytes(u)| == PlainBytes(u)
  {
    var bytes := UnitBytes(u) + rest;
    if u < 0x80 {
      assert bytes[0] == u && bytes[1..] == rest;
    } else if u < 0x800 {
      assert bytes[0] == 0xC0 + u / 64 && bytes[1] == 0x80 + u % 64 && bytes[2..] == rest;
    } else {
      assert u / 64 / 64 == u / 0x1000;
      assert bytes[0] == 0xE0 + u / 0x1000 && bytes[1] == 0x80 + u / 64 % 64 && bytes[2] == 0x80 + u % 64;
      assert bytes[3..] == rest;
    }
  }

  lemma PairBytesReadBack(high: Unit, low: Unit, rest: seq<Byte>)
    requires High(high) && Low(low)
    ensures Decode(PairBytes(high, low) + rest) == [high, low] + Decode(rest)
  {
    var bytes := PairBytes(high, low) + rest;
    var n := 0x1_0000 + PairNumber(high, low);
    assert n / 64 / 64 == n / 0x1000 && n / 0x1000 / 64 == n / 0x4_0000;
    assert bytes[0] == 0xF0 + n / 0x4_0000 && bytes[1] == 0x80 + n / 0x1000 % 64;
    assert bytes[2] == 0x80 + n / 64 % 64 && bytes[3] == 0x80 + n % 64 && bytes[4..] == rest;
    assert PairNumber(high, low) / 0x400 == high - 0xD800 && PairNumber(high, low) % 0x400 == low - 0xDC00;
  }

  /** A text without lone surrogates is read back from its bytes, and these are as many as were counted. */
  lemma {:induction false} EncodedTextReadsBack(text: Text)
    requires WellEncoded(text)
    ensures Decode(Encode(text)) == text && |Encode(text)| == Utf8(text)
  {
    if text == [] {
    } else if StartsWithPair(text) {
      EncodedTextReadsBack(text[2..]);
      PairBytesReadBack(text[0], text[1], Encode(text[2..]));
    } else {
      EncodedTextReadsBack(text[1..]);
      UnitBytesReadBack(text[0], Encode(text[1..]));
    }
  }

  // ----- Sizes of texts -----

  lemma PairFirst(text: Text)
    requires StartsWithPair(text)
    ensures Utf8(text) == 4 + Utf8(text[2..])
    ensures WellEncoded(text) <==> WellEncoded(text[2..])
  {
  }

  lemma UnitFirst(text: Text)
    requires text != [] && !StartsWithPair(text)
    ensures Utf8(text) == PlainBytes(text[0]) + Utf8(text[1..])
    ensures WellEncoded(text) <==> text[0] >= 0x20 && !Surrogate(text[0]) && WellEncoded(text[1..])
  {
  }

  /** The bytes of two texts add up, and the second decides whether they are encoded. */
  predicate Adds(a: Text, b: Text) {
    Utf8(a + b) == Utf8(a) + Utf8(b) && (WellEncoded(a + b) <==> WellEncoded(b))
  }

  lemma PairAdds(a: Text, b: Text)
    requires StartsWithPair(a) && Adds(a[2..], b)
    ensures Adds(a, b)
  {
    hide Utf8, WellEncoded;
    PairFirst(a);
    assert (a + b)[2..] == a[2..] + b;
    PairFirst(a + b);
  }

  lemma UnitAdds(a: Text, b: Text)
    requires a != [] && !StartsWithPair(a) && WellEncoded(a) && Adds(a[1..], b)
    ensures Adds(a, b)
  {
    hide Utf8, WellEncoded;
    UnitFirst(a);
    assert (a + b)[1..] == a[1..] + b;
    UnitFirst(a + b);
  }

  /** Texts without a lone surrogate at the seam take together what they take alone. */
  lemma {:induction false} BytesAdd(a: Text, b: Text)
    requires WellEncoded(a)
    ensures Adds(a, b)
    decreases |a|
  {
    if a == [] {
      assert a + b == b;
    } else {
      hide Utf8, Adds;
      if StartsWithPair(a) {
        BytesAdd(a[2..], b);
        PairAdds(a, b);
      } else {
        BytesAdd(a[1..], b);
        UnitAdds(a, b);
      }
    }
  }

  lemma {:induction false} PlainTextBytes(text: Text)
    requires forall i :: 0 <= i < |text| ==> 0x20 <= text[i] < 0x80
    ensures WellEncoded(text) && Utf8(text) == |text|
  {
    if text != [] {
      PlainTextBytes(text[1..]);
    }
  }

  lemma EscapeUnitBytes(u: Unit)
    requires !Surrogate(u) || EscapeUnit(u) != [u]
    ensures WellEncoded(EscapeUnit(u)) && Utf8(EscapeUnit(u)) == EscapedUnit(u)
  {
    if Short(u) != 0 || u < 0x20 || Surrogate(u) {
      var e := EscapeUnit(u);
      assert forall i :: 0 <= i < |e| ==> 0x20 <= e[i] < 0x80;
      PlainTextBytes(EscapeUnit(u));
    } else {
      assert [u][1..] == [];
    }
  }

  lemma {:induction false} EscapeBytes(text: Text)
    ensures WellEncoded(Escape(text)) && Utf8(Escape(text)) == Escaped(text)
  {
    if text == [] {
    } else if StartsWithPair(text) {
      EscapeBytes(text[2..]);
      assert (text[..2] + Escape(text[2..]))[2..] == Escape(text[2..]);
    } else {
      EscapeBytes(text[1..]);
      EscapeUnitBytes(text[0]);
      BytesAdd(EscapeUnit(text[0]), Escape(text[1..]));
    }
  }

  // ----- The file -----

  function Plain(c: char): Unit {
    if ' ' <= c <= '~' then c as int else ' ' as int
  }

  /** A text of printable characters. */
  function Ascii(s: string): Text {
    seq(|s|, i requires 0 <= i < |s| => Plain(s[i]))
  }

  function Quote(text: Text): Text {
    [QUOTE] + Escape(text) + [QUOTE]
  }

  function StateName(state: RunState): string {
    match state
    case Prepared => "prepared"
    case Dispatching => "dispatching"
    case Completed => "completed"
    case Failed => "failed"
    case NotStarted => "notStarted"
    case OutcomeUnknown => "outcome_unknown"
    case NotRun => "notRun"
  }

  function ValueText(value: Value): Text {
    match value
    case Whole(encoded) => encoded
    case Preview(cut) => Ascii("{\"preview\":") + Quote(cut) + Ascii(",\"truncated\":true}")
  }

  /** One member of the object, behind others. */
  function Member(key: string, value: Text): Text {
    Ascii(key) + value
  }

  function Optional(key: string, value: Option<Text>): seq<Text> {
    match value case None => [] case Some(text) => [Member(key, text)]
  }

  function Mapped<A, B>(value: Option<A>, f: A -> B): Option<B> {
    match value case None => None case Some(a) => Some(f(a))
  }

  function OutputText(output: Output): Text {
    Quote(output.text) + Ascii(",\"outputTruncated\":") + Ascii(if output.truncated then "true" else "false")
  }

  function Head(fields: Fields): seq<Text> {
    [Member(",\"state\":", Ascii("\"" + StateName(fields.state) + "\"")),
     Member(",\"version\":", Ascii(Decimal(fields.version)))]
  }

  /** The members that a record has only once they are set; an undefined field is none. */
  function Rest(fields: Fields): seq<Text> {
    Optional(",\"result\":", Mapped(fields.result, ValueText))
    + Optional(",\"output\":", Mapped(fields.output, OutputText))
    + Optional(",\"error\":", Mapped(fields.error, Quote))
    + Optional(",\"settings\":", Mapped(fields.settings, ValueText))
  }

  /** The members of a record that change. */
  function Members(fields: Fields): seq<Text> {
    Head(fields) + Rest(fields)
  }

  function Join(members: seq<Text>): Text {
    if members == [] then [] else members[0] + Join(members[1..])
  }

  /** The record's file: members that keep their length, identities and times, and then those of the fields. */
  function File(fixed: Text, members: seq<Text>): Text {
    Ascii("{") + fixed + Join(members) + Ascii("}")
  }

  predicate EncodedValue(value: Option<Value>) {
    value.Some? && value.value.Whole? ==> WellEncoded(value.value.encoded)
  }

  /** Values that are written whole came out of the encoder. */
  predicate Encoded(fields: Fields) {
    EncodedValue(fields.result) && EncodedValue(fields.settings)
  }

  lemma UpdatesStayEncoded(fields: Fields, change: Change)
    requires Encoded(fields) && ChangeOk(change)
    ensures Encoded(Updated(fields, change))
  {
    hide WellEncoded, Utf8, NoteText;
  }

  lemma AsciiBytes(s: string)
    ensures WellEncoded(Ascii(s)) && Utf8(Ascii(s)) == |s|
  {
    PlainTextBytes(Ascii(s));
  }

  lemma QuoteBytes(text: Text)
    ensures WellEncoded(Quote(text)) && Utf8(Quote(text)) == 2 + Escaped(text)
  {
    EscapeBytes(text);
    PlainTextBytes([QUOTE]);
    hide Escape, WellEncoded, Utf8;
    BytesAdd([QUOTE], Escape(text));
    BytesAdd([QUOTE] + Escape(text), [QUOTE]);
  }

  lemma ValueTextBytes(value: Value)
    requires value.Whole? ==> WellEncoded(value.encoded)
    ensures WellEncoded(ValueText(value)) && Utf8(ValueText(value)) == ValueBytes(value)
  {
    if value.Preview? {
      var before, after := "{\"preview\":", ",\"truncated\":true}";
      assert |before| + 2 + |after| == |"{\"preview\":\"\",\"truncated\":true}"|;
      AsciiBytes(before);
      AsciiBytes(after);
      QuoteBytes(value.cut);
      hide Quote, Ascii, WellEncoded, Utf8;
      BytesAdd(Ascii(before), Quote(value.cut));
      BytesAdd(Ascii(before) + Quote(value.cut), Ascii(after));
    }
  }

  lemma OutputTextBytes(output: Output)
    ensures WellEncoded(OutputText(output))
    ensures Utf8(OutputText(output)) == OutputBytes(Some(output)).value
  {
    var key, flag := ",\"outputTruncated\":", if output.truncated then "true" else "false";
    AsciiBytes(key);
    AsciiBytes(flag);
    QuoteBytes(output.text);
    hide Quote, Ascii, WellEncoded, Utf8;
    BytesAdd(Quote(output.text), Ascii(key));
    BytesAdd(Quote(output.text) + Ascii(key), Ascii(flag));
  }

  lemma MemberBytes(key: string, value: Text)
    requires WellEncoded(value)
    ensures WellEncoded(Member(key, value)) && Utf8(Member(key, value)) == |key| + Utf8(value)
  {
    AsciiBytes(key);
    BytesAdd(Ascii(key), value);
  }

  lemma {:induction false} NumeralLength(n: nat)
    ensures |Decimal(n)| == Digits(n)
  {
    if n >= 10 {
      NumeralLength(n / 10);
    }
  }

  /** The bytes of texts, one behind the other. */
  function Bytes(members: seq<Text>): nat {
    if members == [] then 0 else Utf8(members[0]) + Bytes(members[1..])
  }

  predicate AllEncoded(members: seq<Text>) {
    forall m :: m in members ==> WellEncoded(m)
  }

  lemma {:induction false} JoinBytes(members: seq<Text>)
    requires AllEncoded(members)
    ensures WellEncoded(Join(members)) && Utf8(Join(members)) == Bytes(members)
  {
    if members != [] {
      JoinBytes(members[1..]);
      BytesAdd(members[0], Join(members[1..]));
    }
  }

  lemma {:induction false} BytesJoin(a: seq<Text>, b: seq<Text>)
    ensures Bytes(a + b) == Bytes(a) + Bytes(b)
  {
    if a == [] {
      assert a + b == b;
    } else {
      BytesJoin(a[1..], b);
      assert (a + b)[1..] == a[1..] + b;
    }
  }

  lemma BytesOfInserted(front: seq<Text>, m: Text, rest: seq<Text>)
    ensures Bytes(front + [m] + rest) == Utf8(m) + Bytes(front + rest)
  {
    BytesJoin(front, rest);
    BytesJoin(front + [m], rest);
    BytesJoin(front, [m]);
    assert [m][1..] == [];
  }

  lemma Inserted(front: seq<Text>, m: Text, rest: seq<Text>)
    ensures multiset(front + [m] + rest) == multiset(front + rest) + multiset{m}
  {
  }

  /** The first of some texts somewhere among the same texts, and what is around it there. */
  lemma FirstIsAmong(a: seq<Text>, b: seq<Text>) returns (front: seq<Text>, rest: seq<Text>)
    requires multiset(a) == multiset(b) && a != []
    ensures b == front + [a[0]] + rest && multiset(a[1..]) == multiset(front + rest)
  {
    assert a == [a[0]] + a[1..];
    assert a[0] in multiset(b);
    var j :| 0 <= j < |b| && b[j] == a[0];
    front, rest := b[..j], b[j + 1..];
    assert b == front + [a[0]] + rest;
    Inserted(front, a[0], rest);
    assert multiset(a) == multiset(a[1..]) + multiset{a[0]};
    assert multiset(a[1..]) == multiset(a) - multiset{a[0]};
  }

  /** In whatever order members were first written, they take the same bytes. */
  lemma {:induction false} BytesInAnyOrder(a: seq<Text>, b: seq<Text>)
    requires multiset(a) == multiset(b)
    ensures Bytes(a) == Bytes(b)
    decreases |a|
  {
    if a == [] {
      assert |multiset(b)| == 0;
    } else {
      hide Utf8;
      var front, rest := FirstIsAmong(a, b);
      BytesInAnyOrder(a[1..], front + rest);
      BytesOfInserted(front, a[0], rest);
    }
  }

  lemma OptionalBytes(key: string, value: Option<Text>)
    requires value.Some? ==> WellEncoded(value.value)
    ensures AllEncoded(Optional(key, value))
    ensures Bytes(Optional(key, value)) == OptionBytes(|key|, Mapped(value, Utf8))
  {
    if value.Some? {
      MemberBytes(key, value.value);
      assert [Member(key, value.value)][1..] == [];
    }
  }

  lemma BytesOfTwo(a: Text, b: Text)
    ensures Bytes([a, b]) == Utf8(a) + Utf8(b)
    ensures WellEncoded(a) && WellEncoded(b) ==> AllEncoded([a, b])
  {
    hide Utf8, WellEncoded;
    var none: seq<Text> := [];
    assert [a][1..] == none && [b][1..] == none && [a] + [b] == [a, b];
    BytesJoin([a], [b]);
  }

  lemma StateNameLength(state: RunState)
    ensures |StateName(state)| == StateBytes(state)
  {
  }

  lemma HeadBytes(fields: Fields)
    ensures AllEncoded(Head(fields))
    ensures Bytes(Head(fields)) == |",\"state\":"| + 2 + StateBytes(fields.state)
                                   + |",\"version\":"| + Digits(fields.version)
  {
    hide Member, Ascii, Utf8, WellEncoded, Digits, Decimal, StateName, StateBytes, Bytes, AllEncoded;
    var state, version := "\"" + StateName(fields.state) + "\"", Decimal(fields.version);
    StateNameLength(fields.state);
    NumeralLength(fields.version);
    AsciiBytes(state);
    AsciiBytes(version);
    MemberBytes(",\"state\":", Ascii(state));
    MemberBytes(",\"version\":", Ascii(version));
    BytesOfTwo(Member(",\"state\":", Ascii(state)), Member(",\"version\":", Ascii(version)));
  }

  lemma BytesOfFour(a: seq<Text>, b: seq<Text>, c: seq<Text>, d: seq<Text>)
    ensures Bytes(a + b + c + d) == Bytes(a) + Bytes(b) + Bytes(c) + Bytes(d)
    ensures AllEncoded(a) && AllEncoded(b) && AllEncoded(c) && AllEncoded(d) ==> AllEncoded(a + b + c + d)
  {
    hide Utf8, WellEncoded;
    BytesJoin(a, b);
    BytesJoin(a + b, c);
    BytesJoin(a + b + c, d);
  }

  lemma OptionalValueBytes(key: string, value: Option<Value>)
    requires EncodedValue(value)
    ensures AllEncoded(Optional(key, Mapped(value, ValueText)))
    ensures Bytes(Optional(key, Mapped(value, ValueText))) == OptionBytes(|key|, Valued(value))
  {
    if value.Some? {
      ValueTextBytes(value.value);
    }
    hide ValueText, Utf8, WellEncoded, ValueBytes;
    OptionalBytes(key, Mapped(value, ValueText));
  }

  lemma OptionalTextBytes(key: string, text: Option<Text>)
    ensures AllEncoded(Optional(key, Mapped(text, Quote)))
    ensures Bytes(Optional(key, Mapped(text, Quote))) == OptionBytes(|key|, Quoted(text))
  {
    if text.Some? {
      QuoteBytes(text.value);
    }
    hide Quote, Utf8, WellEncoded, Escaped;
    OptionalBytes(key, Mapped(text, Quote));
  }

  lemma OptionalOutputBytes(key: string, output: Option<Output>)
    ensures AllEncoded(Optional(key, Mapped(output, OutputText)))
    ensures Bytes(Optional(key, Mapped(output, OutputText))) == OptionBytes(|key|, OutputBytes(output))
  {
    if output.Some? {
      OutputTextBytes(output.value);
    }
    hide OutputText, Utf8, WellEncoded, Escaped;
    OptionalBytes(key, Mapped(output, OutputText));
  }

  lemma RestBytes(fields: Fields)
    requires Encoded(fields)
    ensures AllEncoded(Rest(fields))
    ensures Bytes(Rest(fields)) == OptionBytes(|",\"result\":"|, Valued(fields.result))
                                   + OptionBytes(|",\"output\":"|, OutputBytes(fields.output))
                                   + OptionBytes(|",\"error\":"|, Quoted(fields.error))
                                   + OptionBytes(|",\"settings\":"|, Valued(fields.settings))
  {
    hide Optional, Mapped, OptionBytes, Valued, Quoted, OutputBytes, AllEncoded, Bytes, EncodedValue;
    OptionalValueBytes(",\"result\":", fields.result);
    OptionalOutputBytes(",\"output\":", fields.output);
    OptionalTextBytes(",\"error\":", fields.error);
    OptionalValueBytes(",\"settings\":", fields.settings);
    BytesOfFour(Optional(",\"result\":", Mapped(fields.result, ValueText)),
                Optional(",\"output\":", Mapped(fields.output, OutputText)),
                Optional(",\"error\":", Mapped(fields.error, Quote)),
                Optional(",\"settings\":", Mapped(fields.settings, ValueText)));
  }

  lemma MembersBytes(fields: Fields)
    requires Encoded(fields)
    ensures AllEncoded(Members(fields))
    ensures Bytes(Members(fields)) == Bytes(Head(INITIAL)) + RecordBytes(0, fields)
  {
    hide Optional, Mapped, OptionBytes, Valued, Quoted, OutputBytes, WellEncoded, Utf8, Bytes;
    HeadBytes(fields);
    HeadBytes(INITIAL);
    RestBytes(fields);
    BytesJoin(Head(fields), Rest(fields));
  }

  /** The file of a record is exactly as large as was counted from its inventory entry: identities and times may
      change, but not their length, and members may stand in any order. */
  lemma FileIsAsLargeAsCounted(fixed: Text, entry: seq<Text>, fixedNow: Text, members: seq<Text>, fields: Fields)
    requires Encoded(fields) && WellEncoded(fixed) && WellEncoded(fixedNow) && Utf8(fixed) == Utf8(fixedNow)
    requires multiset(entry) == multiset(Members(INITIAL)) && multiset(members) == multiset(Members(fields))
    ensures Utf8(File(fixedNow, members)) == RecordBytes(Utf8(File(fixed, entry)), fields)
  {
    hide Utf8, WellEncoded, Members, Head;
    MembersBytes(fields);
    MembersBytes(INITIAL);
    FileBytes(fixed, entry, INITIAL);
    FileBytes(fixedNow, members, fields);
  }

  lemma FileBytes(fixed: Text, members: seq<Text>, fields: Fields)
    requires Encoded(fields) && WellEncoded(fixed) && multiset(members) == multiset(Members(fields))
    ensures Utf8(File(fixed, members)) == 2 + Utf8(fixed) + Bytes(Members(fields))
  {
    hide Utf8, WellEncoded, Members, Ascii;
    MembersBytes(fields);
    BytesInAnyOrder(members, Members(fields));
    forall m | m in members ensures WellEncoded(m) {
      assert m in multiset(members);
    }
    JoinBytes(members);
    AsciiBytes("{");
    AsciiBytes("}");
    BytesAdd(Ascii("{"), fixed);
    BytesAdd(Ascii("{") + fixed, Join(members));
    BytesAdd(Ascii("{") + fixed + Join(members), Ascii("}"));
  }
}
