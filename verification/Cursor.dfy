// Page cursors (src/domain/cursor.rs): a JSON envelope in URL-safe base64, accepted only in the spelling the service
// emits.
module Cursor {
  import opened Wrappers
  import Base64

  datatype Kind = Schedules | Executions

  /** A UTC instant by its calendar fields; a leap second is second 59 with a second more of nanoseconds. */
  datatype Instant = Instant(year: int, month: nat, day: nat, hour: nat, minute: nat, second: nat, nano: nat)

  /** The 32 hexadecimal digits, in reading order. */
  type Uuid = id: seq<nat> | |id| == 32 && forall i | 0 <= i < 32 :: id[i] < 16 witness seq(32, i => 0)

  datatype PageCursor = PageCursor(kind: Kind, at: Instant, id: Uuid)

  datatype Envelope = Envelope(version: nat, kind: Kind, at: Instant, id: Uuid)

  datatype CursorError =
    | Empty
    | TooLong(maximum: nat)
    | InvalidEncoding
    | InvalidPayload
    | UnsupportedVersion(version: nat)
    | WrongKind(expected: Kind, actual: Kind)
    | NonCanonical

  const VERSION: nat := 1
  const MAXIMUM: nat := 1024

  function DaysIn(year: int, month: nat): (days: nat)
    ensures days <= 31
  {
    if month == 2 then if year % 4 == 0 && (year % 100 != 0 || year % 400 == 0) then 29 else 28
    else if month in {4, 6, 9, 11} then 30 else 31
  }

  predicate Real(t: Instant) {
    && -262143 <= t.year <= 262142 && 1 <= t.month <= 12 && 1 <= t.day <= DaysIn(t.year, t.month)
    && t.hour < 24 && t.minute < 60 && t.second < 60
    && (t.nano < 1_000_000_000 || (t.second == 59 && t.nano < 2_000_000_000))
  }

  predicate ValidEnvelope(e: Envelope) { e.version < 256 && Real(e.at) }

  // ---- digits ----

  function Pow10(n: nat): (p: nat)
    ensures p > 0
  {
    if n == 0 then 1 else Pow10(n - 1) * 10
  }

  lemma TenPowers()
    ensures Pow10(1) == 10 && Pow10(2) == 100 && Pow10(3) == 1000 && Pow10(4) == 10_000 && Pow10(5) == 100_000
            && Pow10(6) == 1_000_000 && Pow10(9) == 1_000_000_000
  {}

  function Digit(d: nat): char
    requires d < 16
  {
    if d < 10 then '0' + d as char else 'a' + (d - 10) as char
  }

  function DigitValue(c: char): (d: nat)
    ensures d < 16 ==> Digit(d) == c
  {
    if '0' <= c <= '9' then (c - '0') as nat else if 'a' <= c <= 'f' then (c - 'a') as nat + 10 else 16
  }

  predicate Ascii(s: string) { forall i | 0 <= i < |s| :: s[i] as int < 128 }

  /** The last `width` decimal digits of `n`. */
  function Digits(n: nat, width: nat): (s: string)
    ensures |s| == width && Ascii(s) && forall i | 0 <= i < width :: DigitValue(s[i]) < 10
  {
    if width == 0 then "" else Digits(n / 10, width - 1) + [Digit(n % 10)]
  }

  function Value(s: string): nat {
    if s == "" then 0 else Value(s[..|s| - 1]) * 10 + DigitValue(s[|s| - 1])
  }

  lemma ValueOfOneMore(s: string, d: nat)
    requires d < 10
    ensures Value(s + [Digit(d)]) == Value(s) * 10 + d
  {
    assert (s + [Digit(d)])[..|s|] == s;
  }

  lemma {:induction false} ValueOfDigits(n: nat, width: nat)
    requires n < Pow10(width)
    ensures Value(Digits(n, width)) == n
  {
    if width > 0 {
      ValueOfDigits(n / 10, width - 1);
      ValueOfOneMore(Digits(n / 10, width - 1), n % 10);
    }
  }

  // ---- text, each piece written before the rest ----

  function DecimalWidth(n: nat): (w: nat)
    ensures (n < 1_000_000 ==> n < Pow10(w)) && 1 <= w <= 6 && (n < 1000 ==> w <= 3)
  {
    TenPowers();
    if n < 10 then 1 else if n < 100 then 2 else if n < 1000 then 3
    else if n < 10_000 then 4 else if n < 100_000 then 5 else 6
  }

  function YearWidth(size: nat): (w: nat)
    ensures (size < 1_000_000 ==> size < Pow10(w)) && w <= 6
  {
    if size < 10_000 then 4 else DecimalWidth(size)
  }

  function YearText(year: int): (s: string)
    ensures 0 < |s| <= 7 || year < -999_999 || year > 999_999
    ensures Ascii(s)
  {
    if 0 <= year <= 9999 then Digits(year, 4) else
      var size: nat := if year < 0 then -year else year;
      [if year < 0 then '-' else '+'] + Digits(size, YearWidth(size))
  }

  function FractionText(nano: nat, rest: string): (s: string)
    ensures |s| <= 10 + |rest| && (Ascii(rest) ==> Ascii(s))
  {
    if nano == 0 then rest
    else if nano % 1_000_000 == 0 then "." + (Digits(nano / 1_000_000, 3) + rest)
    else if nano % 1000 == 0 then "." + (Digits(nano / 1000, 6) + rest)
    else "." + (Digits(nano, 9) + rest)
  }

  /** Second and nanosecond as they are printed: a leap second shows as second 60. */
  function Printed(t: Instant): (nat, nat) {
    if t.nano >= 1_000_000_000 then (t.second + 1, t.nano - 1_000_000_000) else (t.second, t.nano)
  }

  function TimeText(t: Instant, rest: string): (s: string)
    requires Real(t)
    ensures |s| <= 19 + |rest| && (Ascii(rest) ==> Ascii(s))
  {
    var (second, nano) := Printed(t);
    Digits(t.hour, 2) + (":" + (Digits(t.minute, 2) + (":" + (Digits(second, 2) + FractionText(nano, "Z" + rest)))))
  }

  function DateText(t: Instant, rest: string): (s: string)
    requires Real(t)
    ensures |s| <= 14 + |rest| && (Ascii(rest) ==> Ascii(s))
  {
    YearText(t.year) + ("-" + (Digits(t.month, 2) + ("-" + (Digits(t.day, 2) + ("T" + rest)))))
  }

  function InstantText(t: Instant, rest: string): (s: string)
    requires Real(t)
    ensures |s| <= 33 + |rest| && (Ascii(rest) ==> Ascii(s))
  {
    DateText(t, TimeText(t, rest))
  }

  function UuidText(id: Uuid): (s: string)
    ensures |s| == 36 && Ascii(s)
  {
    var h := seq(32, i requires 0 <= i < 32 => Digit(id[i]));
    h[..8] + "-" + h[8..12] + "-" + h[12..16] + "-" + h[16..20] + "-" + h[20..]
  }

  function KindText(kind: Kind): (s: string)
    ensures |s| <= 10 && Ascii(s)
  {
     if kind.Schedules? then "schedules" else "executions"
  }

  function KindPart(kind: Kind, rest: string): (s: string)
    ensures |s| <= 18 + |rest| && (Ascii(rest) ==> Ascii(s))
  {
    KindText(kind) + ("\",\"at\":\"" + rest)
  }

  function HeadText(version: nat, kind: Kind, rest: string): (s: string)
    requires version < 256
    ensures |s| <= 35 + |rest| && (Ascii(rest) ==> Ascii(s))
  {
    "{\"v\":" + (Digits(version, DecimalWidth(version)) + (",\"kind\":\"" + KindPart(kind, rest)))
  }

  function IdText(id: Uuid): (s: string)
    ensures |s| == 46 && Ascii(s)
  {
    "\",\"id\":\"" + (UuidText(id) + "\"}")
  }

  function Payload(e: Envelope): (s: string)
    requires ValidEnvelope(e)
    ensures |s| <= 114 && Ascii(s)
  {
    HeadText(e.version, e.kind, InstantText(e.at, IdText(e.id)))
  }

  function Bytes(s: string): (b: seq<Base64.Byte>)
    ensures |b| == |s| && forall i | 0 <= i < |s| :: b[i] as int == s[i] as int % 256
  {
    seq(|s|, i requires 0 <= i < |s| => (s[i] as int % 256) as Base64.Byte)
  }

  // ---- the codec ----

  function EncodeEnvelope(e: Envelope): (text: string)
    requires ValidEnvelope(e)
    ensures 0 < |text| <= 152
  {
    var b := Bytes(Payload(e));
    assert |Base64.Encode(b)| == (4 * |b| + 2) / 3;
    Base64.Encode(b)
  }

  function Encode(c: PageCursor): string
    requires Real(c.at)
  {
    EncodeEnvelope(Envelope(VERSION, c.kind, c.at, c.id))
  }

  /** JSON readers that give back every envelope the serializer wrote; what else they accept is left open. */
  ghost predicate Faithful(parse: seq<Base64.Byte> -> Option<Envelope>) {
    && (forall e | ValidEnvelope(e) :: parse(Bytes(Payload(e))) == Some(e))
    && (forall b :: parse(b).Some? ==> ValidEnvelope(parse(b).value))
  }

  function Decode(parse: seq<Base64.Byte> -> Option<Envelope>, encoded: string,
                  expected: Kind): Result<PageCursor, CursorError>
    requires forall b :: parse(b).Some? ==> ValidEnvelope(parse(b).value)
  {
    if encoded == "" then Err(Empty)
    else if |encoded| > MAXIMUM then Err(TooLong(MAXIMUM))
    else
      var bytes := Base64.Decode(encoded);
      if bytes.None? then Err(InvalidEncoding) else
        var parsed := parse(bytes.value);
        if parsed.None? then Err(InvalidPayload) else
          var e := parsed.value;
          if e.version != VERSION then Err(UnsupportedVersion(e.version))
          else if e.kind != expected then Err(WrongKind(expected, e.kind))
          else if EncodeEnvelope(e) != encoded then Err(NonCanonical)
          else Ok(PageCursor(e.kind, e.at, e.id))
  }

  // ---- what decoding promises, for every faithful reader ----

  /** A cursor reads back for its own query and is refused, by name, for the other. */
  lemma DecodeEncode(parse: seq<Base64.Byte> -> Option<Envelope>, c: PageCursor, expected: Kind)
    requires Faithful(parse) && Real(c.at)
    ensures Decode(parse, Encode(c), expected) == if expected == c.kind then Ok(c) else Err(WrongKind(expected, c.kind))
  {
    Base64.DecodeEncode(Bytes(Payload(Envelope(VERSION, c.kind, c.at, c.id))));
  }

  /** The accepted strings are exactly those `Encode` emits for that query, each with its one cursor. */
  lemma {:induction false} AcceptsExactlyEncodings(parse: seq<Base64.Byte> -> Option<Envelope>, encoded: string,
                                                   expected: Kind)
    requires Faithful(parse)
    ensures Decode(parse, encoded, expected).Ok? <==>
      exists c: PageCursor :: Real(c.at) && c.kind == expected && Encode(c) == encoded
    ensures forall c: PageCursor :: Decode(parse, encoded, expected) == Ok(c) <==>
                        Real(c.at) && c.kind == expected && Encode(c) == encoded
  {
    forall c: PageCursor
      ensures Decode(parse, encoded, expected) == Ok(c) <==> Real(c.at) && c.kind == expected && Encode(c) == encoded
    {
      AcceptsItsEncoding(parse, encoded, expected, c);
    }
  }

  lemma {:induction false} AcceptsItsEncoding(parse: seq<Base64.Byte> -> Option<Envelope>, encoded: string,
                                              expected: Kind, c: PageCursor)
    requires Faithful(parse)
    ensures Decode(parse, encoded, expected) == Ok(c) <==> Real(c.at) && c.kind == expected && Encode(c) == encoded
  {
    if Real(c.at) && c.kind == expected && Encode(c) == encoded { DecodeEncode(parse, c, expected); }
  }

  /** Encodings determine their cursor, and no string is a cursor of both queries. */
  lemma {:induction false} EncodeIsInjective(a: PageCursor, b: PageCursor)
    requires Real(a.at) && Real(b.at) && Encode(a) == Encode(b)
    ensures a == b
  {
    ReadIsFaithful();
    DecodeEncode(Read, a, a.kind);
    DecodeEncode(Read, b, a.kind);
  }

  /** Every cursor fits the bound `Decode` puts on its input, with room to spare. */
  lemma EncodedFits(c: PageCursor)
    requires Real(c.at)
    ensures 0 < |Encode(c)| <= MAXIMUM
  {}

  /** What cannot be a cursor is refused by its size before it is read. */
  lemma SizeIsCheckedFirst(parse: seq<Base64.Byte> -> Option<Envelope>, encoded: string, expected: Kind)
    requires Faithful(parse)
    ensures encoded == "" ==> Decode(parse, encoded, expected) == Err(Empty)
    ensures |encoded| > 1024 ==> Decode(parse, encoded, expected) == Err(TooLong(1024))
  {}

  // ---- a strict reader: faithful readers exist ----

  function Literal(s: string, lit: string): Option<string> {
    if |lit| <= |s| && s[..|lit|] == lit then Some(s[|lit|..]) else None
  }

  function Fixed(s: string, width: nat): Option<(nat, string)> {
    if width <= |s| && forall i | 0 <= i < width :: DigitValue(s[i]) < 10
    then Some((Value(s[..width]), s[width..])) else None
  }

  lemma LiteralReads(lit: string, rest: string)
    ensures Literal(lit + rest, lit) == Some(rest)
  {}

  lemma FixedReads(n: nat, width: nat, rest: string)
    requires n < Pow10(width)
    ensures Fixed(Digits(n, width) + rest, width) == Some((n, rest))
  {
    ValueOfDigits(n, width);
    assert (Digits(n, width) + rest)[..width] == Digits(n, width);
  }

  /** The length of the leading run of decimal digits. */
  function Run(s: string): (n: nat)
    ensures n <= |s|
  {
    if s != "" && DigitValue(s[0]) < 10 then 1 + Run(s[1..]) else 0
  }

  lemma {:induction false} RunReads(digits: string, rest: string)
    requires forall i | 0 <= i < |digits| :: DigitValue(digits[i]) < 10
    requires rest == "" || DigitValue(rest[0]) >= 10
    ensures Run(digits + rest) == |digits|
  {
    if digits != "" {
      RunReads(digits[1..], rest);
      assert (digits + rest)[1..] == digits[1..] + rest;
    }
  }

  /** Digits of a fixed width, then a separator. */
  function Field(s: string, width: nat, lit: string): Option<(nat, string)> {
    var n := Fixed(s, width);
    if n.None? then None else
      var rest := Literal(n.value.1, lit);
      if rest.None? then None else Some((n.value.0, rest.value))
  }

  lemma FieldReads(n: nat, width: nat, lit: string, rest: string)
    requires n < Pow10(width)
    ensures Field(Digits(n, width) + (lit + rest), width, lit) == Some((n, rest))
  {}

  function ReadSize(s: string): Option<(nat, string)> { Fixed(s, Run(s)) }

  lemma SizeReads(n: nat, width: nat, rest: string)
    requires n < Pow10(width) && (rest == "" || DigitValue(rest[0]) >= 10)
    ensures ReadSize(Digits(n, width) + rest) == Some((n, rest))
  {
    FixedReads(n, width, rest);
    RunReads(Digits(n, width), rest);
  }

  function ReadYear(s: string): Option<(int, string)> {
    if s != "" && (s[0] == '-' || s[0] == '+') then
      var size := ReadSize(s[1..]);
      if size.None? then None else
        var year: int := size.value.0;
        Some((if s[0] == '-' then -year else year, size.value.1))
    else Fixed(s, 4)
  }

  lemma {:induction false} YearReads(year: int, rest: string)
    requires -999_999 <= year <= 999_999 && rest != "" && DigitValue(rest[0]) >= 10
    ensures ReadYear(YearText(year) + rest) == Some((year, rest))
  {
    if 0 <= year <= 9999 {
      PlainYearReads(year, rest);
    } else {
      var size: nat := if year < 0 then -year else year;
      assert YearText(year) == [if year < 0 then '-' else '+'] + Digits(size, YearWidth(size));
      SignedYearReads(year < 0, size, YearWidth(size), rest);
    }
  }

  lemma PlainYearReads(year: nat, rest: string)
    requires year <= 9999
    ensures ReadYear(Digits(year, 4) + rest) == Some((year, rest))
  {
    TenPowers();
    FixedReads(year, 4, rest);
    assert DigitValue((Digits(year, 4) + rest)[0]) < 10;
  }

  lemma {:induction false} SignedYearReads(negative: bool, size: nat, width: nat, rest: string)
    requires size < Pow10(width) && rest != "" && DigitValue(rest[0]) >= 10
    ensures ReadYear([if negative then '-' else '+'] + Digits(size, width) + rest)
            == Some((if negative then -(size as int) else size, rest))
  {
    var s := [if negative then '-' else '+'] + Digits(size, width) + rest;
    SizeReads(size, width, rest);
    assert s[1..] == Digits(size, width) + rest;
  }

  function ReadFraction(s: string): Option<(nat, string)> {
    var dot := Literal(s, ".");
    if dot.None? then Some((0, s)) else
      var width := Run(dot.value);
      var n := Fixed(dot.value, width);
      if n.None? || width > 9 then None else Some((n.value.0 * Pow10(9 - width), n.value.1))
  }

  lemma FractionReads(nano: nat, rest: string)
    requires nano < 1_000_000_000 && rest != "" && DigitValue(rest[0]) >= 10 && rest[0] != '.'
    ensures ReadFraction(FractionText(nano, rest)) == Some((nano, rest))
  {
    if nano != 0 {
      var width := if nano % 1_000_000 == 0 then 3 else if nano % 1000 == 0 then 6 else 9;
      var n := if width == 3 then nano / 1_000_000 else if width == 6 then nano / 1000 else nano;
      assert n < Pow10(width) && n * Pow10(9 - width) == nano by { TenPowers(); }
      FractionOf(n, width, rest);
    }
  }

  lemma FractionOf(n: nat, width: nat, rest: string)
    requires width <= 9 && n < Pow10(width) && rest != "" && DigitValue(rest[0]) >= 10
    ensures ReadFraction("." + (Digits(n, width) + rest)) == Some((n * Pow10(9 - width), rest))
  {
    LiteralReads(".", Digits(n, width) + rest);
    RunReads(Digits(n, width), rest);
    FixedReads(n, width, rest);
  }

  function ReadDate(s: string): Option<(int, nat, nat, string)> {
    var year := ReadYear(s);
    if year.None? then None else
      var dash := Literal(year.value.1, "-");
      if dash.None? then None else
        var month := Field(dash.value, 2, "-");
        if month.None? then None else
          var day := Field(month.value.1, 2, "T");
          if day.None? then None else Some((year.value.0, month.value.0, day.value.0, day.value.1))
  }

  function ReadTime(s: string): Option<(nat, nat, nat, nat, string)> {
    var hour := Field(s, 2, ":");
    if hour.None? then None else
      var minute := Field(hour.value.1, 2, ":");
      if minute.None? then None else
        var second := Fixed(minute.value.1, 2);
        if second.None? then None else
          var nano := ReadFraction(second.value.1);
          if nano.None? then None else
            var end := Literal(nano.value.1, "Z");
            if end.None? then None else Some((hour.value.0, minute.value.0, second.value.0, nano.value.0, end.value))
  }

  function ReadInstant(s: string): Option<(Instant, string)> {
    var date := ReadDate(s);
    if date.None? then None else
      var (year, month, day, later) := date.value;
      var time := ReadTime(later);
      if time.None? then None else
        var (hour, minute, second, nano, rest) := time.value;
        Some((if second == 60 then Instant(year, month, day, hour, minute, 59, nano + 1_000_000_000)
              else Instant(year, month, day, hour, minute, second, nano), rest))
  }

  lemma TimeReads(t: Instant, rest: string)
    requires Real(t)
    ensures ReadTime(TimeText(t, rest)) == Some((t.hour, t.minute, Printed(t).0, Printed(t).1, rest))
  {
    var (second, nano) := Printed(t);
    TenPowers();
    FieldReads(t.hour, 2, ":", Digits(t.minute, 2) + (":" + (Digits(second, 2) + FractionText(nano, "Z" + rest))));
    FieldReads(t.minute, 2, ":", Digits(second, 2) + FractionText(nano, "Z" + rest));
    FixedReads(second, 2, FractionText(nano, "Z" + rest));
    FractionReads(nano, "Z" + rest);
    LiteralReads("Z", rest);
  }

  lemma DateReads(t: Instant, rest: string)
    requires Real(t)
    ensures ReadDate(DateText(t, rest)) == Some((t.year, t.month, t.day, rest))
  {
    var fromDay := Digits(t.day, 2) + ("T" + rest);
    var fromMonth := Digits(t.month, 2) + ("-" + fromDay);
    TenPowers();
    YearReads(t.year, "-" + fromMonth);
    LiteralReads("-", fromMonth);
    FieldReads(t.month, 2, "-", fromDay);
    FieldReads(t.day, 2, "T", rest);
  }

  lemma InstantReads(t: Instant, rest: string)
    requires Real(t)
    ensures ReadInstant(InstantText(t, rest)) == Some((t, rest))
  {
    DateReads(t, TimeText(t, rest));
    TimeReads(t, rest);
    PartsRead(t, InstantText(t, rest), TimeText(t, rest), rest);
  }

  lemma {:induction false} PartsRead(t: Instant, s: string, later: string, rest: string)
    requires Real(t) && ReadDate(s) == Some((t.year, t.month, t.day, later))
    requires ReadTime(later) == Some((t.hour, t.minute, Printed(t).0, Printed(t).1, rest))
    ensures ReadInstant(s) == Some((t, rest))
  {}

  function ReadUuid(s: string): Option<(Uuid, string)> {
    if |s| >= 36 && s[8] == '-' && s[13] == '-' && s[18] == '-' && s[23] == '-' then
      var h := s[..8] + s[9..13] + s[14..18] + s[19..23] + s[24..36];
      if forall i | 0 <= i < 32 :: DigitValue(h[i]) < 16
      then Some((seq(32, i requires 0 <= i < 32 => DigitValue(h[i])), s[36..])) else None
    else None
  }

  lemma UuidReads(id: Uuid, rest: string)
    ensures ReadUuid(UuidText(id) + rest) == Some((id, rest))
  {
    var h := seq(32, i requires 0 <= i < 32 => Digit(id[i]));
    var s := UuidText(id) + rest;
    assert s[..8] + s[9..13] + s[14..18] + s[19..23] + s[24..36] == h by { UuidParts(id, h, s); }
    assert s[36..] == rest;
    assert ReadUuid(s).value.0 == id;
  }

  lemma UuidParts(id: Uuid, h: string, s: string)
    requires h == seq(32, i requires 0 <= i < 32 => Digit(id[i])) && UuidText(id) <= s
    ensures s[..8] == h[..8] && s[9..13] == h[8..12] && s[14..18] == h[12..16] && s[19..23] == h[16..20]
      && s[24..36] == h[20..]
    ensures h == h[..8] + h[8..12] + h[12..16] + h[16..20] + h[20..]
  {}

  function ReadKind(s: string): Option<(Kind, string)> {
    var a, b := Literal(s, "schedules"), Literal(s, "executions");
    if a.Some? then Some((Schedules, a.value)) else if b.Some? then Some((Executions, b.value)) else None
  }

  lemma KindReads(kind: Kind, rest: string)
    ensures ReadKind(KindText(kind) + rest) == Some((kind, rest))
  {
    LiteralReads(KindText(kind), rest);
    assert (KindText(kind) + rest)[0] == KindText(kind)[0];
    if kind.Executions? { assert "schedules"[0] == 's'; }
  }

  /** The version and the kind. */
  function ReadHead(s: string): Option<(nat, Kind, string)> {
    var open := Literal(s, "{\"v\":");
    if open.None? then None else
      var version := Field(open.value, Run(open.value), ",\"kind\":\"");
      if version.None? then None else
        var kind := ReadKind(version.value.1);
        if kind.None? then None else
          var at := Literal(kind.value.1, "\",\"at\":\"");
          if at.None? then None else Some((version.value.0, kind.value.0, at.value))
  }

  lemma HeadReads(version: nat, kind: Kind, rest: string)
    requires version < 256
    ensures ReadHead(HeadText(version, kind, rest)) == Some((version, kind, rest))
  {
    var later := KindPart(kind, rest);
    var width := DecimalWidth(version);
    LiteralReads("{\"v\":", Digits(version, width) + (",\"kind\":\"" + later));
    RunReads(Digits(version, width), ",\"kind\":\"" + later);
    FieldReads(version, width, ",\"kind\":\"", later);
    KindReads(kind, "\",\"at\":\"" + rest);
    LiteralReads("\",\"at\":\"", rest);
  }

  function ReadText(s: string): Option<Envelope> {
    var head := ReadHead(s);
    if head.None? then None else
      var at := ReadInstant(head.value.2);
      if at.None? then None else
        var comma := Literal(at.value.1, "\",\"id\":\"");
        if comma.None? then None else
          var id := ReadUuid(comma.value);
          if id.None? || id.value.1 != "\"}" then None else
            var e := Envelope(head.value.0, head.value.1, at.value.0, id.value.0);
            if ValidEnvelope(e) then Some(e) else None
  }

  function Chars(b: seq<Base64.Byte>): string { seq(|b|, i requires 0 <= i < |b| => b[i] as char) }

  function Read(b: seq<Base64.Byte>): Option<Envelope> { ReadText(Chars(b)) }

  lemma PayloadReads(e: Envelope)
    requires ValidEnvelope(e)
    ensures ReadText(Payload(e)) == Some(e)
  {
    var id := UuidText(e.id) + "\"}";
    HeadReads(e.version, e.kind, InstantText(e.at, IdText(e.id)));
    InstantReads(e.at, IdText(e.id));
    LiteralReads("\",\"id\":\"", id);
    UuidReads(e.id, "\"}");
  }

  lemma ReadIsFaithful()
    ensures Faithful(Read)
  {
    forall e | ValidEnvelope(e) ensures Read(Bytes(Payload(e))) == Some(e) {
      PayloadReads(e);
      CharsOfBytes(Payload(e));
    }
  }

  lemma CharsOfBytes(s: string)
    requires Ascii(s)
    ensures Chars(Bytes(s)) == s
  {}
}
