// Coloured tokens and the text scanning shared by the lexers (frontend/lib/highlight.ts).
//
// The lexers index UTF-16 units. A unit is written here as the character with its value; a surrogate, which is no
// character, as one beyond all units (`CharOf`). Indices may run past the end of the text, as they do in the lexers.
module Tokens {
  import opened Wrappers

  datatype Kind = Comment | String | Number | Keyword | Type | Function | Property | Tag | Punctuation

  datatype Token = Token(kind: Option<Kind>, text: string)

  // ---- token lists ----

  function Text(tokens: seq<Token>): string {
    if tokens == [] then "" else Text(tokens[..|tokens| - 1]) + tokens[|tokens| - 1].text
  }

  /** Joined as far as possible: no token is empty and neighbours differ in kind. */
  predicate Normal(tokens: seq<Token>) {
    && (forall i | 0 <= i < |tokens| :: tokens[i].text != "")
    && (forall i | 0 < i < |tokens| :: tokens[i - 1].kind != tokens[i].kind)
  }

  function Pushed(tokens: seq<Token>, value: string, kind: Option<Kind>): seq<Token> {
    var n := |tokens|;
    if value == "" then tokens
    else if n > 0 && tokens[n - 1].kind == kind then tokens[..n - 1] + [Token(kind, tokens[n - 1].text + value)]
    else tokens + [Token(kind, value)]
  }

  lemma {:induction false} PushAppendsText(tokens: seq<Token>, value: string, kind: Option<Kind>)
    ensures Text(Pushed(tokens, value, kind)) == Text(tokens) + value
    ensures Normal(tokens) ==> Normal(Pushed(tokens, value, kind))
  {
    var pushed := Pushed(tokens, value, kind);
    if value != "" { assert pushed[..|pushed| - 1] <= tokens; }
  }

  /** Joining changes the kind of no character. */
  lemma PushAppendsKinds(tokens: seq<Token>, value: string, kind: Option<Kind>)
    ensures Kinds(Pushed(tokens, value, kind)) == Kinds(tokens) + seq(|value|, _ => kind)
  {
    var pushed := Pushed(tokens, value, kind);
    if value != "" { assert pushed[..|pushed| - 1] <= tokens; }
  }

  /** A text has one normal colouring: joining loses neither text nor the kind of any character. */
  lemma {:induction false} NormalIsUnique(a: seq<Token>, b: seq<Token>)
    requires Normal(a) && Normal(b) && Text(a) == Text(b) && Kinds(a) == Kinds(b)
    ensures a == b
  {
    KindsLength(a);
    KindsLength(b);
    if a != [] && b != [] {
      var m, n := |a| - 1, |b| - 1;
      var k, l := |Text(a[..m])|, |Text(b[..n])|;
      LastRun(a, k);
      LastRun(b, l);
      assert k == l && Kinds(a)[k] == Kinds(b)[k];
      NormalIsUnique(a[..m], b[..n]);
      assert a == a[..m] + [a[m]] && b == b[..n] + [b[n]];
    }
  }

  /** The kind of every character. */
  function Kinds(tokens: seq<Token>): seq<Option<Kind>> {
    if tokens == [] then [] else
      var last := tokens[|tokens| - 1];
      Kinds(tokens[..|tokens| - 1]) + seq(|last.text|, _ => last.kind)
  }

  lemma {:induction false} KindsLength(tokens: seq<Token>)
    ensures |Kinds(tokens)| == |Text(tokens)|
    ensures Normal(tokens) && tokens != [] ==> Text(tokens) != ""
  {
    if tokens != [] { KindsLength(tokens[..|tokens| - 1]); }
  }

  /** Where the last token starts can be read off the colouring. */
  lemma {:induction false} LastRun(tokens: seq<Token>, start: nat)
    requires Normal(tokens) && tokens != [] && start == |Text(tokens[..|tokens| - 1])|
    ensures start < |Text(tokens)| == |Kinds(tokens)|
    ensures forall i | start <= i < |Kinds(tokens)| :: Kinds(tokens)[i] == tokens[|tokens| - 1].kind
    ensures Text(tokens)[..start] == Text(tokens[..|tokens| - 1]) && Text(tokens)[start..] == tokens[|tokens| - 1].text
    ensures Kinds(tokens)[..start] == Kinds(tokens[..|tokens| - 1]) && Normal(tokens[..|tokens| - 1])
    ensures start > 0 ==> Kinds(tokens)[start - 1] != Kinds(tokens)[start]
  {
    var m := |tokens| - 1;
    KindsLength(tokens);
    KindsLength(tokens[..m]);
    RunBefore(tokens, start);
  }

  lemma {:induction false} RunBefore(tokens: seq<Token>, start: nat)
    requires Normal(tokens) && tokens != [] && start == |Kinds(tokens[..|tokens| - 1])|
    ensures start > 0 ==> Kinds(tokens)[start - 1] == Kinds(tokens[..|tokens| - 1])[start - 1]
    ensures start > 0 ==> Kinds(tokens[..|tokens| - 1])[start - 1] != tokens[|tokens| - 1].kind
  {
    var m := |tokens| - 1;
    if m > 0 { assert tokens[..m][m - 1] == tokens[m - 1]; }
  }

  lemma JoinLast(tokens: seq<Token>, t: Token)
    requires tokens != []
    ensures tokens[|tokens| - 1 := t] == tokens[..|tokens| - 1] + [t]
  {}

  class Out {
    var tokens: seq<Token>

    constructor ()
      ensures tokens == []
    {
      tokens := [];
    }

    method Push(value: string, kind: Option<Kind>)
      modifies this
      ensures tokens == Pushed(old(tokens), value, kind)
      ensures Text(tokens) == Text(old(tokens)) + value
      ensures Normal(old(tokens)) ==> Normal(tokens)
    {
      PushAppendsText(tokens, value, kind);
      if value == "" {
        return;
      }
      var n := |tokens|;
      if n > 0 && tokens[n - 1].kind == kind {
        JoinLast(tokens, Token(kind, tokens[n - 1].text + value));
        tokens := tokens[n - 1 := Token(kind, tokens[n - 1].text + value)];
      } else {
        tokens := tokens + [Token(kind, value)];
      }
    }
  }

  // ---- slices ----

  function Min(a: int, b: int): int { if a < b then a else b }

  /** `slice`: both ends clipped to the text. */
  function Slice(s: string, from: nat, to: nat): string {
    if from < to && from < |s| then s[from..Min(to, |s|)] else ""
  }

  /** `text` is all of `code` before `index`. */
  predicate Covers(text: string, code: string, index: nat) { text <= code && |text| == Min(index, |code|) }

  lemma CoversOn(text: string, code: string, from: nat, to: nat)
    requires Covers(text, code, from) && from <= to
    ensures Covers(text + Slice(code, from, to), code, to)
  {}

  /** A slice cut at one of its characters. */
  lemma {:induction false} CutSlice(s: string, from: nat, to: nat, at: nat)
    requires at < |Slice(s, from, to)|
    ensures Slice(Slice(s, from, to), 0, at) == Slice(s, from, from + at)
    ensures from + at + 1 <= to && Is(s, from + at, Slice(s, from, to)[at])
    ensures Slice(Slice(s, from, to), at + 1, |Slice(s, from, to)|) == Slice(s, from + at + 1, to)
  {
    var end := Min(to, |s|);
    var word := s[from..end];
    assert word[..at] == s[from..from + at];
    assert word[at + 1..] == s[from + at + 1..end];
  }

  predicate Is(s: string, i: nat, c: char) { i < |s| && s[i] == c }

  predicate Pair(s: string, i: nat, a: char, b: char) { Is(s, i, a) && Is(s, i + 1, b) }

  function Find(s: string, c: char, from: nat): (at: Option<nat>)
    ensures at.Some? ==> from <= at.value < |s| && s[at.value] == c
    decreases |s| - from
  {
    if from >= |s| then None else if s[from] == c then Some(from) else Find(s, c, from + 1)
  }

  lemma {:induction false} FindIsFirst(s: string, c: char, from: nat)
    ensures var end := if Find(s, c, from).Some? then Find(s, c, from).value else |s|;
            forall i | from <= i < end :: s[i] != c
    decreases |s| - from
  {
    if from < |s| && s[from] != c { FindIsFirst(s, c, from + 1); }
  }

  /** The end of the longest run of characters of a class starting at `from`. */
  function SpanEnd(s: string, from: nat, member: char -> bool): (end: nat)
    requires from <= |s|
    ensures from <= end <= |s|
    decreases |s| - from
  {
    if from < |s| && member(s[from]) then SpanEnd(s, from + 1, member) else from
  }

  lemma {:induction false} SpanIsLongest(s: string, from: nat, member: char -> bool)
    requires from <= |s|
    ensures forall i | from <= i < SpanEnd(s, from, member) :: member(s[i])
    ensures SpanEnd(s, from, member) < |s| ==> !member(s[SpanEnd(s, from, member)])
    decreases |s| - from
  {
    if from < |s| && member(s[from]) { SpanIsLongest(s, from + 1, member); }
  }

  lemma {:induction false} SpanOfPrefix(s: string, from: nat, end: nat, member: char -> bool)
    requires from <= end <= |s| && end == SpanEnd(s, from, member)
    ensures SpanEnd(s[..end], from, member) == end
    decreases |s| - from
  {
    if from < end { SpanOfPrefix(s, from + 1, end, member); }
  }

  predicate All(s: string, member: char -> bool) { forall i | 0 <= i < |s| :: member(s[i]) }

  // ---- character classes ----

  predicate Digit(c: char) { '0' <= c <= '9' }
  predicate Upper(c: char) { 'A' <= c <= 'Z' }
  predicate Lower(c: char) { 'a' <= c <= 'z' }
  predicate NameStart(c: char) { Upper(c) || Lower(c) || c == '_' }
  predicate NamePart(c: char) { NameStart(c) || Digit(c) }

  /** `\s`. */
  predicate Space(c: char) {
    || '\U{9}' <= c <= '\U{d}' || c == ' ' || c == '\U{a0}' || c == '\U{1680}' || '\U{2000}' <= c <= '\U{200a}'
    || c == '\U{2028}' || c == '\U{2029}' || c == '\U{202f}' || c == '\U{205f}' || c == '\U{3000}' || c == '\U{feff}'
  }

  /** What `.` does not match. */
  predicate LineEnd(c: char) { c == '\n' || c == '\r' || c == '\U{2028}' || c == '\U{2029}' }

  predicate Identifier(s: string) { s != "" && NameStart(s[0]) && All(s, NamePart) }

  /** The end of the `[A-Za-z_][A-Za-z0-9_]*` at `from`, or `from` when there is none. */
  function NameEnd(s: string, from: nat): (end: nat)
    requires from <= |s|
    ensures from <= end <= |s|
  {
    if from < |s| && NameStart(s[from]) then SpanEnd(s, from, NamePart) else from
  }

  lemma NameIsIdentifier(s: string, from: nat)
    requires from <= |s|
    ensures NameEnd(s, from) > from ==> Identifier(s[from..NameEnd(s, from)])
  {
    SpanIsLongest(s, from, NamePart);
  }

  function TrimStart(s: string): string { if s != "" && Space(s[0]) then TrimStart(s[1..]) else s }

  /** The run of backslashes right before `i`, as far as it starts at `from` or later, escapes what is at `i`. */
  predicate Escaped(s: string, from: nat, i: nat)
    decreases i
  {
    from < i <= |s| && s[i - 1] == '\\' && !Escaped(s, from, i - 1)
  }

  /** A reader may go on behind a character that is no backslash, or behind an escaped one. */
  lemma {:induction false} EscapesFromThere(s: string, from: nat, next: nat, i: nat)
    requires from < next <= i <= |s|
    requires next == from + if s[from] == '\\' then 2 else 1
    ensures Escaped(s, from, i) <==> Escaped(s, next, i)
    decreases i
  {
    assert Escaped(s, from, from + 1) <==> s[from] == '\\';
    if next < i { EscapesFromThere(s, from, next, i - 1); }
  }

  // ---- UTF-16 units as characters ----

  newtype Unit = x: int | 0 <= x < 0x1_0000

  predicate Surrogate(u: Unit) { 0xd800 <= u < 0xe000 }

  function CharOf(u: Unit): char { if Surrogate(u) then (u as int + 0x1_0000) as char else u as char }

  /** Any source text, unpaired surrogates included. */
  function CharsOf(units: seq<Unit>): (s: string)
    ensures |s| == |units| && forall i | 0 <= i < |s| :: s[i] == CharOf(units[i])
  {
    seq(|units|, i requires 0 <= i < |units| => CharOf(units[i]))
  }

  /** No text is lost in writing it down. */
  lemma CharsOfIsInjective(a: seq<Unit>, b: seq<Unit>)
    requires CharsOf(a) == CharsOf(b)
    ensures a == b
  {
    forall i | 0 <= i < |a| ensures a[i] == b[i] {
      assert CharsOf(a)[i] == CharsOf(b)[i];
    }
  }

  /** Half a character pair is to every pattern what it is to the lexers: no space, line end, digit, letter or mark. */
  lemma SurrogatesAreOrdinary(u: Unit)
    requires Surrogate(u)
    ensures var c := CharOf(u); !Space(c) && !LineEnd(c) && !NamePart(c) && c > '\U{ffff}'
  {}
}
