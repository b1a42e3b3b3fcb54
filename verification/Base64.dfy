// URL-safe base64 without padding, decoded strictly (section 5 of RFC 4648).
//
// A byte of text is written as the character with that code.
module Base64 {
  import opened Wrappers

  newtype Byte = x: int | 0 <= x < 256
  newtype Sextet = x: int | 0 <= x < 64

  function Encode(bytes: seq<Byte>): string { Letters(Regroup(bytes)) }

  /** Refuses foreign characters, a lone last character and set bits past the last byte. */
  function Decode(text: string): Option<seq<Byte>> {
    if forall c | c in text :: InAlphabet(c) then Ungroup(Values(text)) else None
  }

  predicate InAlphabet(c: char) { 'A' <= c <= 'Z' || 'a' <= c <= 'z' || '0' <= c <= '9' || c == '-' || c == '_' }

  function Letter(s: Sextet): (c: char)
    ensures InAlphabet(c) && SextetOf(c) == s
  {
    if s < 26 then 'A' + s as char
    else if s < 52 then 'a' + (s - 26) as char
    else if s < 62 then '0' + (s - 52) as char
    else if s == 62 then '-' else '_'
  }

  function SextetOf(c: char): Sextet
    requires InAlphabet(c)
  {
    if 'A' <= c <= 'Z' then (c - 'A') as Sextet
    else if 'a' <= c <= 'z' then (c - 'a') as Sextet + 26
    else if '0' <= c <= '9' then (c - '0') as Sextet + 52
    else if c == '-' then 62 else 63
  }

  function Letters(s: seq<Sextet>): (text: string)
    ensures |text| == |s| && forall i | 0 <= i < |s| :: text[i] == Letter(s[i])
  {
    seq(|s|, i requires 0 <= i < |s| => Letter(s[i]))
  }

  function Values(text: string): (s: seq<Sextet>)
    requires forall c | c in text :: InAlphabet(c)
    ensures |s| == |text| && forall i | 0 <= i < |s| :: s[i] == SextetOf(text[i])
  {
    seq(|text|, i requires 0 <= i < |text| => SextetOf(text[i]))
  }

  /** Three bytes as four sextets; the last group is filled with zero bits. */
  function Regroup(b: seq<Byte>): (s: seq<Sextet>)
    ensures |s| == (4 * |b| + 2) / 3
  {
    if |b| == 0 then []
    else if |b| == 1 then [High(b[0]), Join(b[0], 0)]
    else if |b| == 2 then [High(b[0]), Join(b[0], b[1]), Tail(b[1], 0)]
    else [High(b[0]), Join(b[0], b[1]), Tail(b[1], b[2]), Low(b[2])] + Regroup(b[3..])
  }

  function High(a: Byte): Sextet { (a as int / 4) as Sextet }
  function Join(a: Byte, b: Byte): Sextet { (a as int % 4 * 16 + b as int / 16) as Sextet }
  function Tail(b: Byte, c: Byte): Sextet { (b as int % 16 * 4 + c as int / 64) as Sextet }
  function Low(c: Byte): Sextet { (c as int % 64) as Sextet }

  function First(p: Sextet, q: Sextet): Byte { (p as int * 4 + q as int / 16) as Byte }
  function Second(q: Sextet, r: Sextet): Byte { (q as int % 16 * 16 + r as int / 4) as Byte }
  function Third(r: Sextet, s: Sextet): Byte { (r as int % 4 * 64 + s as int) as Byte }

  function Ungroup(s: seq<Sextet>): Option<seq<Byte>> {
    if |s| == 0 then Some([])
    else if |s| == 1 then None
    else if |s| == 2 then if s[1] % 16 == 0 then Some([First(s[0], s[1])]) else None
    else if |s| == 3 then if s[2] % 4 == 0 then Some([First(s[0], s[1]), Second(s[1], s[2])]) else None
    else
      var rest := Ungroup(s[4..]);
      if rest.None? then None
      else Some([First(s[0], s[1]), Second(s[1], s[2]), Third(s[2], s[3])] + rest.value)
  }

  lemma FirstBack(a: Byte, b: Byte)
    ensures First(High(a), Join(a, b)) == a
    ensures Join(a, 0) % 16 == 0
  {}

  lemma {:induction false} SecondBack(a: Byte, b: Byte, c: Byte)
    ensures Second(Join(a, b), Tail(b, c)) == b
    ensures Tail(b, 0) % 4 == 0
  {
    var x, y, z := a as int, b as int, c as int;
    assert (x % 4 * 16 + y / 16) % 16 == y / 16;
    assert (y % 16 * 4 + z / 64) / 4 == y % 16;
  }

  lemma ThirdBack(b: Byte, c: Byte)
    ensures Third(Tail(b, c), Low(c)) == c
  {}

  lemma HighBack(p: Sextet, q: Sextet)
    ensures High(First(p, q)) == p
  {}

  lemma JoinBack(p: Sextet, q: Sextet, r: Sextet)
    ensures Join(First(p, q), Second(q, r)) == q
    ensures q % 16 == 0 ==> Join(First(p, q), 0) == q
  {
    var x, y, z := p as int, q as int, r as int;
    assert (x * 4 + y / 16) % 4 == y / 16;
    assert (y % 16 * 16 + z / 4) / 16 == y % 16;
  }

  lemma TailBack(q: Sextet, r: Sextet, s: Sextet)
    ensures Tail(Second(q, r), Third(r, s)) == r && Low(Third(r, s)) == s
    ensures r % 4 == 0 ==> Tail(Second(q, r), 0) == r
  {
    var x, y, z := q as int, r as int, s as int;
    assert (x % 16 * 16 + y / 4) % 16 == y / 4;
    assert (y % 4 * 64 + z) / 64 == y % 4;
    assert (y % 4 * 64 + z) % 64 == z;
  }

  lemma {:induction false} UngroupRegroups(b: seq<Byte>)
    ensures Ungroup(Regroup(b)) == Some(b)
  {
    if |b| >= 1 { FirstBack(b[0], if |b| >= 2 then b[1] else 0); }
    if |b| >= 2 { SecondBack(b[0], b[1], if |b| >= 3 then b[2] else 0); }
    if |b| >= 3 {
      ThirdBack(b[1], b[2]);
      UngroupRegroups(b[3..]);
      assert Regroup(b)[4..] == Regroup(b[3..]);
      assert b == [b[0], b[1], b[2]] + b[3..];
    } else {
      assert Ungroup(Regroup(b)).value == b;
    }
  }

  lemma {:induction false} RegroupUngroups(s: seq<Sextet>)
    requires Ungroup(s).Some?
    ensures Regroup(Ungroup(s).value) == s
  {
    if |s| >= 2 {
      HighBack(s[0], s[1]);
      JoinBack(s[0], s[1], if |s| >= 3 then s[2] else 0);
    }
    if |s| >= 3 { TailBack(s[1], s[2], if |s| >= 4 then s[3] else 0); }
    if |s| >= 4 {
      RegroupUngroups(s[4..]);
      var rest := Ungroup(s[4..]).value;
      assert Ungroup(s).value[3..] == rest;
      assert s == [s[0], s[1], s[2], s[3]] + s[4..];
    }
  }

  lemma DecodeEncode(bytes: seq<Byte>)
    ensures Decode(Encode(bytes)) == Some(bytes)
  {
    UngroupRegroups(bytes);
    assert Values(Encode(bytes)) == Regroup(bytes);
  }

  /** Every accepted text is the encoding of what it decodes to: there is one spelling per byte sequence. */
  lemma {:induction false} EncodeDecode(text: string)
    requires Decode(text).Some?
    ensures Encode(Decode(text).value) == text
  {
    RegroupUngroups(Values(text));
    LettersOfValues(text);
  }

  lemma {:induction false} LettersOfValues(text: string)
    requires forall c | c in text :: InAlphabet(c)
    ensures Letters(Values(text)) == text
  {
    forall i | 0 <= i < |text| ensures Letter(SextetOf(text[i])) == text[i] {
      assert text[i] in text;
    }
  }
}
