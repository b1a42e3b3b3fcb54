// The TypeScript and JavaScript lexer, with templates that nest code inside text inside code.
module ScriptLexer {
  import opened Wrappers
  import opened Tokens

  const WINDOW: nat := 4096

  datatype Vocabulary = Vocabulary(keywords: set<string>, types: set<string>, beforeRegex: set<string>)

  const SCRIPT: Vocabulary := Vocabulary(
    {"as", "async", "await", "break", "case", "catch", "class", "const", "continue", "debugger", "default", "delete",
     "do", "else", "enum", "export", "extends", "false", "finally", "for", "from", "function", "get", "if",
     "implements", "import", "in", "instanceof", "interface", "let", "new", "null", "of", "private", "protected",
     "public", "readonly", "return", "satisfies", "set", "static", "super", "switch", "this", "throw", "true", "try",
     "type", "typeof", "undefined", "var", "void", "while", "with", "yield", "declare", "keyof", "namespace",
     "abstract"},
    {"string", "number", "boolean", "object", "symbol", "bigint", "unknown", "never", "any", "void", "Record",
     "Promise", "Array", "Map", "Set", "Date", "Error", "Response", "Request", "URL", "URLSearchParams", "Uint8Array",
     "Buffer"},
    {"(", ",", "=", ":", "[", "!", "&", "|", "?", "{", "}", ";", "+", "-", "*", "%", "<", ">", "~", "^", "=>", "return",
     "typeof", "case", "do", "else", "in", "of", "new", "delete", "void", "throw", "yield", "await"})

  // ---- patterns: each gives the length of the match at the start of `s`, 0 for none ----

  /** The first end of a block comment from `from` on. */
  function FindClose(s: string, from: nat): (at: Option<nat>)
    ensures at.Some? ==> from <= at.value && Pair(s, at.value, '*', '/')
    decreases |s| - from
  {
    if from >= |s| then None else if Pair(s, from, '*', '/') then Some(from) else FindClose(s, from + 1)
  }

  function CommentLength(s: string): (n: nat)
    ensures n <= |s|
  {
    if Pair(s, 0, '/', '/') then
      var newline := Find(s, '\n', 0);
      if newline.Some? then newline.value else |s|
    else if Pair(s, 0, '/', '*') then
      var close := FindClose(s, 2);
      if close.Some? then close.value + 2 else |s|
    else 0
  }

  /** The rest of a string literal: it ends after its quote, or before a line feed or an escaped line end. */
  function StringEnd(s: string, from: nat, quote: char): (end: nat)
    requires from <= |s|
    ensures from <= end <= |s|
    decreases |s| - from
  {
    if from == |s| || s[from] == '\n' then from
    else if s[from] == quote then from + 1
    else if s[from] == '\\' then
      if from + 1 < |s| && !LineEnd(s[from + 1]) then StringEnd(s, from + 2, quote) else from
    else StringEnd(s, from + 1, quote)
  }

  function StringLength(s: string): (n: nat)
    ensures n <= |s|
  {
    if s != "" && (s[0] == '"' || s[0] == '\'') then StringEnd(s, 1, s[0]) else 0
  }

  /** The end of a `[…]` class opened just before `from`, or `None` when it is not closed. */
  function ClassEnd(s: string, from: nat): (end: Option<nat>)
    requires from <= |s|
    ensures end.Some? ==> from < end.value <= |s|
    decreases |s| - from
  {
    if from == |s| || s[from] == '\n' then None
    else if s[from] == ']' then Some(from + 1)
    else if s[from] == '\\' then
      if from + 1 < |s| && !LineEnd(s[from + 1]) then ClassEnd(s, from + 2) else None
    else ClassEnd(s, from + 1)
  }

  /** The end of the longest run of regular-expression elements. */
  function ElementsEnd(s: string, from: nat): (end: nat)
    requires from <= |s|
    ensures from <= end <= |s|
    decreases |s| - from
  {
    if from == |s| || s[from] == '\n' || s[from] == '/' then from
    else if s[from] == '\\' then
      if from + 1 < |s| && !LineEnd(s[from + 1]) then ElementsEnd(s, from + 2) else from
    else if s[from] == '[' then
      var close := ClassEnd(s, from + 1);
      if close.Some? then ElementsEnd(s, close.value) else from
    else ElementsEnd(s, from + 1)
  }

  predicate RegexFlag(c: char) { c in {'d', 'g', 'i', 'm', 's', 'u', 'y', 'v'} }

  function RegexLength(s: string): (n: nat)
    ensures n <= |s|
  {
    if !Is(s, 0, '/') || Is(s, 1, '*') || Is(s, 1, '/') then 0
    else
      var end := ElementsEnd(s, 1);
      if end > 1 && Is(s, end, '/') then SpanEnd(s, end + 1, RegexFlag) else 0
  }

  predicate HexPart(c: char) { Digit(c) || 'a' <= c <= 'f' || 'A' <= c <= 'F' || c == '_' }
  predicate DigitPart(c: char) { Digit(c) || c == '_' }

  function FractionEnd(s: string, from: nat): (end: nat)
    requires from <= |s|
    ensures from <= end <= |s|
  {
    if Is(s, from, '.') && from + 1 < |s| && Digit(s[from + 1]) then SpanEnd(s, from + 1, Digit) else from
  }

  function ExponentEnd(s: string, from: nat): (end: nat)
    requires from <= |s|
    ensures from <= end <= |s|
  {
    if Is(s, from, 'e') || Is(s, from, 'E') then
      var sign := if Is(s, from + 1, '+') || Is(s, from + 1, '-') then from + 2 else from + 1;
      if sign < |s| && Digit(s[sign]) then SpanEnd(s, sign, Digit) else from
    else from
  }

  function NumberLength(s: string): (n: nat)
    ensures n <= |s| && (n > 0 ==> Digit(s[0]))
  {
    if Is(s, 0, '0') && (Is(s, 1, 'x') || Is(s, 1, 'X')) && SpanEnd(s, 2, HexPart) > 2 then SpanEnd(s, 2, HexPart)
    else if s != "" && Digit(s[0]) then
      var end := ExponentEnd(s, FractionEnd(s, SpanEnd(s, 1, DigitPart)));
      if Is(s, end, 'n') then end + 1 else end
    else 0
  }

  predicate WordPart(c: char) { NamePart(c) || c == '$' }

  function WordLength(s: string): (n: nat)
    ensures n <= |s| && (n > 0 ==> NameStart(s[0]) || s[0] == '$')
  {
    if s != "" && (NameStart(s[0]) || s[0] == '$') then SpanEnd(s, 1, WordPart) else 0
  }

  predicate SinglePunctuator(c: char) {
    c in {'{', '}', '(', ')', '[', ']', ';', ',', '.', ':', '?', '!', '<', '>', '=', '+', '-', '*', '/', '%', '&', '|',
          '^', '~'}
  }

  /** A comparison, or a mark that is doubled. */
  predicate PairedMarks(a: char, b: char) {
    (b == '=' && a in {'=', '!', '<', '>'}) || (a == b && a in {'&', '|', '?'})
  }

  function PunctuatorLength(s: string): (n: nat)
    ensures n <= |s|
  {
    if Pair(s, 0, '?', '.') || Pair(s, 0, '=', '>') then 2
    else if (Pair(s, 0, '=', '=') || Pair(s, 0, '!', '=')) && Is(s, 2, '=') then 3
    else if |s| > 1 && PairedMarks(s[0], s[1]) then 2
    else if Pair(s, 0, '.', '.') && Is(s, 2, '.') then 3
    else if s != "" && SinglePunctuator(s[0]) then 1
    else 0
  }

  /** A run of whitespace, or one character that ends no line: whatever is left always matches. */
  function OtherLength(s: string): (n: nat)
    requires s != ""
    ensures 0 < n <= |s|
  {
    if Space(s[0]) then SpanEnd(s, 1, Space) else assert !LineEnd(s[0]); 1
  }

  // ---- the colour of a word ----

  predicate TypeName(word: string) {
    word != "" && Upper(word[0]) && exists i | 0 <= i < |word| :: Lower(word[i])
  }

  predicate ThenParen(after: string) { Is(after, SpanEnd(after, 0, Space), '(') }

  /** As `ThenParen`, with type arguments before the parenthesis. */
  predicate ThenCall(after: string) {
    var open := SpanEnd(after, 0, Space);
    var close := if Is(after, open, '<') then SpanEnd(after, open + 1, (c: char) => c != '>' && c != '(' && c != ')')
      else 0;
    if Is(after, open, '<') && Is(after, close, '>') then Is(after, SpanEnd(after, close + 1, Space), '(')
    else Is(after, open, '(')
  }

  predicate ThenColon(after: string) {
    var at := SpanEnd(after, 0, Space);
    Is(after, at, ':') && !Is(after, at + 1, ':')
  }

  function WordKind(v: Vocabulary, word: string, after: string, previous: string): Option<Kind> {
    if previous == "." && ThenParen(after) then Some(Function)
    else if previous == "." || previous == "?." then Some(Property)
    else if word in v.keywords then Some(Keyword)
    else if word in v.types || (TypeName(word) && !ThenParen(after)) then Some(Type)
    else if ThenCall(after) then Some(Function)
    else if ThenColon(after) && (previous == "{" || previous == ",") then Some(Property)
    else None
  }

  /** What starts at `index`, tried in the lexer's order: how long it is, and its kind. */
  function Matched(v: Vocabulary, code: string, index: nat, previous: string): (found: (nat, Option<Kind>))
    requires index < |code|
    ensures 0 < found.0 && index + found.0 <= |code|
  {
    var rest := Slice(code, index, index + WINDOW);
    var literal := Literal(rest, previous == "" || previous in v.beforeRegex);
    if literal.0 > 0 then literal
    else if WordLength(rest) > 0 then
      var end := index + WordLength(rest);
      (WordLength(rest), WordKind(v, code[index..end], Slice(code, end, end + 64), previous))
    else Mark(rest)
  }

  /** A comment, a string, a regular expression where one may stand, or a number. */
  function Literal(rest: string, regex: bool): (found: (nat, Option<Kind>))
    ensures found.0 <= |rest|
  {
    if CommentLength(rest) > 0 then (CommentLength(rest), Some(Comment))
    else if StringLength(rest) > 0 then (StringLength(rest), Some(String))
    else if regex && RegexLength(rest) > 0 then (RegexLength(rest), Some(String))
    else (NumberLength(rest), Some(Number))
  }

  /** Punctuation, or whatever is left. */
  function Mark(rest: string): (found: (nat, Option<Kind>))
    requires rest != ""
    ensures 0 < found.0 <= |rest|
  {
    if PunctuatorLength(rest) > 0 then (PunctuatorLength(rest), Some(Punctuation)) else (OtherLength(rest), None)
  }

  // ---- the reading of a text: its pieces, one after another ----

  datatype Piece = Piece(from: nat, to: nat, kind: Option<Kind>)

  /** Pieces, and where reading stopped. */
  datatype Reading = Reading(pieces: seq<Piece>, end: nat)

  function After(first: seq<Piece>, rest: Reading): Reading { Reading(first + rest.pieces, rest.end) }

  /** Whether white space is all there is. */
  predicate IsBlank(value: string) { SpanEnd(value, 0, Space) == |value| }

  /** How deep in braces, counted only inside a template's expression. */
  function Depth(c: char, stopAtBrace: bool, depth: nat): nat
    requires stopAtBrace && c == '}' ==> depth > 0
  {
    if stopAtBrace && c == '{' then depth + 1 else if stopAtBrace && c == '}' then depth - 1 else depth
  }

  /** Code, to its end or to the brace that closes a template's expression. */
  function ReadCode(v: Vocabulary, code: string, at: nat, stopAtBrace: bool, previous: string, depth: nat): (r: Reading)
    requires at <= |code| + 1
    ensures at <= r.end <= |code| + 1 && (r.end < |code| ==> stopAtBrace && code[r.end] == '}')
    decreases |code| + 1 - at, 1
  {
    if at >= |code| || (stopAtBrace && code[at] == '}' && depth == 0) then Reading([], at) else
      var (pieces, next, before) := CodeStep(v, code, at, previous);
      After(pieces, ReadCode(v, code, next, stopAtBrace, before, Depth(code[at], stopAtBrace, depth)))
  }

  /** A whole template, or what one pattern matches; where it ends, and what counts as the previous piece behind it. */
  function CodeStep(v: Vocabulary, code: string, at: nat, previous: string): (step: (seq<Piece>, nat, string))
    requires at < |code|
    ensures at < step.1 <= |code| + 1
    decreases |code| + 1 - at, 0
  {
    if code[at] == '`' then
      var template := ReadTemplate(v, code, at + 1);
      ([Piece(at, at + 1, Some(String))] + template.pieces, template.end, "`")
    else
      var (length, kind) := Matched(v, code, at, previous);
      var value := code[at..at + length];
      ([Piece(at, at + length, kind)], at + length, if IsBlank(value) then previous else value)
  }

  /** A template behind its opening quote: text, and expressions read as code. */
  function ReadTemplate(v: Vocabulary, code: string, at: nat): (r: Reading)
    requires at <= |code| + 1
    ensures at <= r.end <= |code| + 1
    decreases |code| + 1 - at, 1
  {
    if at >= |code| then Reading([], at)
    else if code[at] == '`' then Reading([Piece(at, at + 1, Some(String))], at + 1)
    else
      var (pieces, next) := TemplateStep(v, code, at);
      After(pieces, ReadTemplate(v, code, next))
  }

  /** An escaped character, a whole expression or one character of a template's text. */
  function TemplateStep(v: Vocabulary, code: string, at: nat): (step: (seq<Piece>, nat))
    requires at < |code|
    ensures at < step.1 <= |code| + 1
    decreases |code| + 1 - at, 0
  {
    if code[at] == '\\' then ([Piece(at, at + 2, Some(String))], at + 2)
    else if Pair(code, at, '$', '{') then Enclosed(code, at, ReadCode(v, code, at + 2, true, "", 0))
    else ([Piece(at, at + 1, Some(String))], at + 1)
  }

  /** An expression with its braces, the closing one if there is one. */
  function Enclosed(code: string, at: nat, inner: Reading): (seq<Piece>, nat) {
    var closed := ClosingPieces(code, inner.end);
    ([Piece(at, at + 2, Some(Punctuation))] + inner.pieces + closed, inner.end + |closed|)
  }

  function ClosingPieces(code: string, at: nat): seq<Piece> {
    if Is(code, at, '}') then [Piece(at, at + 1, Some(Punctuation))] else []
  }

  // ---- kinds of characters ----

  type Colours = seq<Option<Kind>>

  predicate Painted(kinds: Colours, p: Piece) { forall i | p.from <= i < p.to && i < |kinds| :: kinds[i] == p.kind }

  predicate AllPainted(kinds: Colours, pieces: seq<Piece>) { forall p | p in pieces :: Painted(kinds, p) }

  /** The pieces lie before `end`. */
  predicate Within(pieces: seq<Piece>, end: nat) { forall p | p in pieces :: p.to <= end }

  ghost predicate Continues(was: seq<Token>, now: seq<Token>) { Kinds(was) <= Kinds(now) }

  lemma ColouredLength(tokens: seq<Token>, code: string, index: nat)
    requires Coloured(tokens, code, index)
    ensures |Kinds(tokens)| == Min(index, |code|)
  {
    KindsLength(tokens);
  }

  /** What has been painted stays so. */
  lemma PaintedStays(a: seq<Token>, b: seq<Token>, code: string, mid: nat, end: nat, pieces: seq<Piece>)
    requires Coloured(a, code, mid) && Coloured(b, code, end) && Continues(a, b)
    requires Within(pieces, mid) && AllPainted(Kinds(a), pieces)
    ensures AllPainted(Kinds(b), pieces)
  {
    ColouredLength(a, code, mid);
    ColouredLength(b, code, end);
  }

  // ---- what the colours promise: how a token of each kind begins ----

  predicate Begins(value: string, kind: Option<Kind>) {
    value == "" || kind.None? ||
    match kind.value
    case Comment => Pair(value, 0, '/', '/') || Pair(value, 0, '/', '*')
    case Number => Digit(value[0])
    case Keyword => NameStart(value[0]) || value[0] == '$'
    case Type => NameStart(value[0]) || value[0] == '$'
    case Function => NameStart(value[0]) || value[0] == '$'
    case Property => NameStart(value[0]) || value[0] == '$'
    case Punctuation => SinglePunctuator(value[0]) || value[0] == '$'
    case String => true
    case Tag => false
  }

  predicate AllBegin(tokens: seq<Token>) { forall t | t in tokens :: Begins(t.text, t.kind) }

  ghost predicate Coloured(tokens: seq<Token>, code: string, index: nat) {
    && Normal(tokens)
    && AllBegin(tokens)
    && Covers(Text(tokens), code, index)
  }

  lemma PushedBegins(tokens: seq<Token>, value: string, kind: Option<Kind>)
    requires AllBegin(tokens) && Begins(value, kind)
    requires forall i | 0 <= i < |tokens| :: tokens[i].text != ""
    ensures AllBegin(Pushed(tokens, value, kind))
  {}

  lemma PushPaints(tokens: seq<Token>, value: string, kind: Option<Kind>, code: string, from: nat, to: nat)
    requires Coloured(tokens, code, from) && from <= to && value == Slice(code, from, to)
    ensures Continues(tokens, Pushed(tokens, value, kind))
    ensures Painted(Kinds(Pushed(tokens, value, kind)), Piece(from, to, kind))
  {
    ColouredLength(tokens, code, from);
    PushAppendsKinds(tokens, value, kind);
  }

  method Emit(out: Out, value: string, kind: Option<Kind>, ghost code: string, ghost from: nat, ghost to: nat)
    requires Coloured(out.tokens, code, from) && from <= to && value == Slice(code, from, to)
    requires Begins(value, kind)
    modifies out
    ensures Coloured(out.tokens, code, to)
    ensures Continues(old(out.tokens), out.tokens) && Painted(Kinds(out.tokens), Piece(from, to, kind))
  {
    PushPaints(out.tokens, value, kind, code, from, to);
    PushedBegins(out.tokens, value, kind);
    CoversOn(Text(out.tokens), code, from, to);
    out.Push(value, kind);
  }

  method EmitChar(out: Out, c: char, kind: Option<Kind>, ghost code: string, ghost from: nat)
    requires Coloured(out.tokens, code, from) && Is(code, from, c) && Begins([c], kind)
    modifies out
    ensures Coloured(out.tokens, code, from + 1)
    ensures Continues(old(out.tokens), out.tokens) && Painted(Kinds(out.tokens), Piece(from, from + 1, kind))
  {
    assert Slice(code, from, from + 1) == [c];
    Emit(out, [c], kind, code, from, from + 1);
  }

  // ---- the lexer ----

  /** Every character has the kind of the piece it is read in. */
  ghost predicate ReadsAs(v: Vocabulary, code: string, kinds: Colours) {
    |kinds| == |code| && AllPainted(kinds, ReadCode(v, code, 0, false, "", 0).pieces)
  }

  method HighlightScript(code: string, out: Out)
    requires out.tokens == []
    modifies out
    ensures Text(out.tokens) == code
    ensures Normal(out.tokens) && AllBegin(out.tokens)
    ensures ReadsAs(SCRIPT, code, Kinds(out.tokens))
  {
    var index := Lex(SCRIPT, code, out, 0, false);
    ColouredLength(out.tokens, code, index);
  }

  /** What has been read from the start, and that the rest is what is still to be read. */
  ghost predicate ReadUpTo(whole: Reading, done: seq<Piece>, rest: Reading, at: nat, kinds: Colours) {
    whole == After(done, rest) && Within(done, at) && AllPainted(kinds, done)
  }

  /** Colours code from `start` to its end, or to the brace that closes a template's expression. */
  method Lex(v: Vocabulary, code: string, out: Out, start: nat, stopAtBrace: bool) returns (index: nat)
    requires start <= |code| && Coloured(out.tokens, code, start)
    modifies out
    ensures var r := ReadCode(v, code, start, stopAtBrace, "", 0);
      index == r.end && Coloured(out.tokens, code, index) && Within(r.pieces, index)
        && AllPainted(Kinds(out.tokens), r.pieces)
    ensures Continues(old(out.tokens), out.tokens)
    decreases |code| - start, 2
  {
    index := start;
    var previous: string, depth: nat := "", 0;
    ghost var whole := ReadCode(v, code, start, stopAtBrace, "", 0);
    ghost var done: seq<Piece> := [];
    while index < |code|
      invariant start <= index <= |code| + 1
      invariant Coloured(out.tokens, code, index) && Continues(old(out.tokens), out.tokens)
      invariant ReadUpTo(whole, done, ReadCode(v, code, index, stopAtBrace, previous, depth), index, Kinds(out.tokens))
      decreases |code| + 1 - index
    {
      ghost var was, tokens := index, out.tokens;
      ghost var rest := ReadCode(v, code, index, stopAtBrace, previous, depth);
      if stopAtBrace {
        if code[index] == '}' && depth == 0 { return; }
      }
      depth := Depth(code[index], stopAtBrace, depth);
      ghost var pieces;
      index, previous, pieces := Next(v, code, out, index, previous);
      OneMoreRead(code, whole, done, rest, pieces, ReadCode(v, code, index, stopAtBrace, previous, depth),
                  was, index, tokens, out.tokens);
      done := done + pieces;
    }
  }

  lemma OneMoreRead(code: string, whole: Reading, done: seq<Piece>, rest: Reading, pieces: seq<Piece>, later: Reading,
                    at: nat, next: nat, a: seq<Token>, b: seq<Token>)
    requires ReadUpTo(whole, done, rest, at, Kinds(a)) && rest == After(pieces, later) && at <= next
    requires Coloured(a, code, at) && Coloured(b, code, next) && Continues(a, b)
    requires Within(pieces, next) && AllPainted(Kinds(b), pieces)
    ensures ReadUpTo(whole, done + pieces, later, next, Kinds(b))
  {
    PaintedStays(a, b, code, at, next, done);
    assert done + (pieces + later.pieces) == done + pieces + later.pieces;
  }

  method Next(v: Vocabulary, code: string, out: Out, at: nat, before: string)
    returns (index: nat, previous: string, ghost pieces: seq<Piece>)
    requires at < |code| && Coloured(out.tokens, code, at)
    modifies out
    ensures (pieces, index, previous) == CodeStep(v, code, at, before) && at < index <= |code| + 1
    ensures Coloured(out.tokens, code, index) && Continues(old(out.tokens), out.tokens)
    ensures Within(pieces, index) && AllPainted(Kinds(out.tokens), pieces)
    decreases |code| - at, 1
  {
    if code[at] == '`' {
      index, pieces := Template(v, code, out, at);
      return index, "`", pieces;
    }
    index, previous, pieces := Pattern(v, code, out, at, before);
  }

  lemma ValueIsSlice(code: string, at: nat, length: nat)
    requires at < |code| && length <= |Slice(code, at, at + WINDOW)|
    ensures Slice(code, at, at + WINDOW)[..length] == code[at..at + length] == Slice(code, at, at + length)
  {}

  method Pattern(v: Vocabulary, code: string, out: Out, at: nat, before: string)
    returns (index: nat, previous: string, ghost pieces: seq<Piece>)
    requires at < |code| && code[at] != '`' && Coloured(out.tokens, code, at)
    modifies out
    ensures (pieces, index, previous) == CodeStep(v, code, at, before) && at < index <= |code|
    ensures Coloured(out.tokens, code, index) && Continues(old(out.tokens), out.tokens)
    ensures Within(pieces, index) && AllPainted(Kinds(out.tokens), pieces)
  {
    var rest := Slice(code, at, at + WINDOW);
    var length, kind := Match(v, code, at, rest, before);
    ValueIsSlice(code, at, length);
    index, previous := Value(out, code, at, rest[..length], kind, before);
    pieces := [Piece(at, index, kind)];
    StepOf(v, code, at, before, length, kind);
  }

  /** What a pattern has matched; white space does not count as a previous piece. */
  method Value(out: Out, code: string, at: nat, value: string, kind: Option<Kind>, before: string)
    returns (index: nat, previous: string)
    requires Coloured(out.tokens, code, at) && at + |value| <= |code| && value == code[at..at + |value|]
    requires Begins(value, kind)
    modifies out
    ensures index == at + |value| && previous == if IsBlank(value) then before else value
    ensures Coloured(out.tokens, code, index) && Continues(old(out.tokens), out.tokens)
    ensures Painted(Kinds(out.tokens), Piece(at, index, kind))
  {
    index := at + |value|;
    Emit(out, value, kind, code, at, index);
    previous := if SpanEnd(value, 0, Space) < |value| then value else before;
  }

  lemma {:induction false} StepOf(v: Vocabulary, code: string, at: nat, before: string, length: nat, kind: Option<Kind>)
    requires at < |code| && code[at] != '`' && (length, kind) == Matched(v, code, at, before)
    ensures var value := code[at..at + length];
      CodeStep(v, code, at, before)
      == ([Piece(at, at + length, kind)], at + length, if IsBlank(value) then before else value)
  {}

  /** What starts at `index`, tried in the lexer's order. */
  method Match(v: Vocabulary, code: string, index: nat, rest: string, previous: string)
    returns (length: nat, kind: Option<Kind>)
    requires index < |code| && rest == Slice(code, index, index + WINDOW)
    ensures (length, kind) == Matched(v, code, index, previous)
    ensures 0 < length <= |rest| && Begins(rest[..length], kind)
  {
    length := CommentLength(rest);
    if length > 0 { BeginsAlike(rest, length, Comment); return length, Some(Comment); }
    length := StringLength(rest);
    if length > 0 { return length, Some(String); }
    if previous == "" || previous in v.beforeRegex {
      length := RegexLength(rest);
      if length > 0 { return length, Some(String); }
    }
    length := NumberLength(rest);
    if length > 0 { return length, Some(Number); }
    length := WordLength(rest);
    if length > 0 {
      ValueIsSlice(code, index, length);
      kind := WordKind(v, rest[..length], Slice(code, index + length, index + length + 64), previous);
      return;
    }
    length := PunctuatorLength(rest);
    if length > 0 { BeginsAlike(rest, length, Punctuation); return length, Some(Punctuation); }
    return OtherLength(rest), None;
  }

  lemma BeginsAlike(rest: string, length: nat, kind: Kind)
    requires 0 < length <= |rest|
    requires (kind == Comment && length == CommentLength(rest))
      || (kind == Punctuation && length == PunctuatorLength(rest))
    ensures Begins(rest[..length], Some(kind))
  {}

  /** A template literal: text, and expressions lexed as code. */
  method Template(v: Vocabulary, code: string, out: Out, from: nat) returns (index: nat, ghost pieces: seq<Piece>)
    requires Is(code, from, '`') && Coloured(out.tokens, code, from)
    modifies out
    ensures var r := ReadTemplate(v, code, from + 1);
      index == r.end && pieces == [Piece(from, from + 1, Some(String))] + r.pieces
    ensures from < index <= |code| + 1 && Coloured(out.tokens, code, index) && Continues(old(out.tokens), out.tokens)
    ensures Within(pieces, index) && AllPainted(Kinds(out.tokens), pieces)
    decreases |code| - from, 0
  {
    EmitChar(out, '`', Some(String), code, from);
    index := from + 1;
    ghost var whole := After([Piece(from, from + 1, Some(String))], ReadTemplate(v, code, from + 1));
    pieces := [Piece(from, from + 1, Some(String))];
    while index < |code| && code[index] != '`'
      invariant from < index <= |code| + 1
      invariant Coloured(out.tokens, code, index) && Continues(old(out.tokens), out.tokens)
      invariant ReadUpTo(whole, pieces, ReadTemplate(v, code, index), index, Kinds(out.tokens))
      decreases |code| + 1 - index
    {
      ghost var was, tokens := index, out.tokens;
      ghost var more;
      index, more := InTemplate(v, code, out, index);
      OneMoreRead(code, whole, pieces, ReadTemplate(v, code, was), more, ReadTemplate(v, code, index),
                  was, index, tokens, out.tokens);
      pieces := pieces + more;
    }
    index, pieces := TemplateEnd(v, code, out, index, whole, pieces);
  }

  /** The closing quote, if there is one. */
  method TemplateEnd(ghost v: Vocabulary, code: string, out: Out, at: nat, ghost whole: Reading,
                     ghost before: seq<Piece>)
    returns (index: nat, ghost pieces: seq<Piece>)
    requires at <= |code| + 1 && (at < |code| ==> code[at] == '`') && Coloured(out.tokens, code, at)
    requires ReadUpTo(whole, before, ReadTemplate(v, code, at), at, Kinds(out.tokens))
    modifies out
    ensures index == whole.end && pieces == whole.pieces && at <= index <= |code| + 1
    ensures Coloured(out.tokens, code, index) && Continues(old(out.tokens), out.tokens)
    ensures Within(pieces, index) && AllPainted(Kinds(out.tokens), pieces)
  {
    index, pieces := at, before;
    if index < |code| {
      ghost var tokens := out.tokens;
      EmitChar(out, '`', Some(String), code, index);
      ghost var last := [Piece(index, index + 1, Some(String))];
      OneMoreRead(code, whole, pieces, ReadTemplate(v, code, index), last, Reading([], index + 1),
                  index, index + 1, tokens, out.tokens);
      pieces := pieces + last;
      index := index + 1;
    }
  }

  /** An escaped character, an expression or one character of a template's text. */
  method InTemplate(v: Vocabulary, code: string, out: Out, at: nat) returns (index: nat, ghost pieces: seq<Piece>)
    requires at < |code| && code[at] != '`' && Coloured(out.tokens, code, at)
    modifies out
    ensures (pieces, index) == TemplateStep(v, code, at)
    ensures Coloured(out.tokens, code, index) && Continues(old(out.tokens), out.tokens)
    ensures Within(pieces, index) && AllPainted(Kinds(out.tokens), pieces)
    decreases |code| - at, 3
  {
    if code[at] == '\\' {
      Emit(out, Slice(code, at, at + 2), Some(String), code, at, at + 2);
      return at + 2, [Piece(at, at + 2, Some(String))];
    }
    if Pair(code, at, '$', '{') {
      index, pieces := Expression(v, code, out, at);
      return;
    }
    EmitChar(out, code[at], Some(String), code, at);
    return at + 1, [Piece(at, at + 1, Some(String))];
  }

  /** `${…}`, or the rest of the text if nothing closes it. */
  method Expression(v: Vocabulary, code: string, out: Out, at: nat) returns (index: nat, ghost pieces: seq<Piece>)
    requires Pair(code, at, '$', '{') && Coloured(out.tokens, code, at)
    modifies out
    ensures (pieces, index) == Enclosed(code, at, ReadCode(v, code, at + 2, true, "", 0))
    ensures Coloured(out.tokens, code, index) && Continues(old(out.tokens), out.tokens)
    ensures Within(pieces, index) && AllPainted(Kinds(out.tokens), pieces)
    decreases |code| - at, 2
  {
    Opening(out, code, at);
    index, pieces := Inner(v, code, out, at);
    index, pieces := Closing(out, code, index, pieces, at, ReadCode(v, code, at + 2, true, "", 0));
  }

  method Inner(v: Vocabulary, code: string, out: Out, at: nat) returns (index: nat, ghost pieces: seq<Piece>)
    requires at + 2 <= |code| && Coloured(out.tokens, code, at + 2)
    requires Painted(Kinds(out.tokens), Piece(at, at + 2, Some(Punctuation)))
    modifies out
    ensures var inner := ReadCode(v, code, at + 2, true, "", 0);
      index == inner.end && pieces == [Piece(at, at + 2, Some(Punctuation))] + inner.pieces
    ensures Coloured(out.tokens, code, index) && Continues(old(out.tokens), out.tokens)
    ensures Within(pieces, index) && AllPainted(Kinds(out.tokens), pieces)
    decreases |code| - at, 1
  {
    ghost var entered := out.tokens;
    ghost var first := [Piece(at, at + 2, Some(Punctuation))];
    index := Lex(v, code, out, at + 2, true);
    PaintedStays(entered, out.tokens, code, at + 2, index, first);
    pieces := first + ReadCode(v, code, at + 2, true, "", 0).pieces;
  }

  /** The closing brace, if there is one. */
  method Closing(out: Out, code: string, at: nat, ghost before: seq<Piece>, ghost from: nat, ghost inner: Reading)
    returns (index: nat, ghost pieces: seq<Piece>)
    requires Coloured(out.tokens, code, at) && Within(before, at) && AllPainted(Kinds(out.tokens), before)
    requires at == inner.end && before == [Piece(from, from + 2, Some(Punctuation))] + inner.pieces
    modifies out
    ensures (pieces, index) == Enclosed(code, from, inner)
    ensures Coloured(out.tokens, code, index) && Continues(old(out.tokens), out.tokens)
    ensures Within(pieces, index) && AllPainted(Kinds(out.tokens), pieces)
  {
    index, pieces := at, before + ClosingPieces(code, at);
    if Is(code, at, '}') {
      ghost var left := out.tokens;
      EmitChar(out, '}', Some(Punctuation), code, at);
      index := at + 1;
      PaintedStays(left, out.tokens, code, at, index, before);
    }
  }

  method Opening(out: Out, code: string, at: nat)
    requires Pair(code, at, '$', '{') && Coloured(out.tokens, code, at)
    modifies out
    ensures Coloured(out.tokens, code, at + 2) && Continues(old(out.tokens), out.tokens)
    ensures Painted(Kinds(out.tokens), Piece(at, at + 2, Some(Punctuation)))
  {
    EmitChar(out, '$', Some(Punctuation), code, at);
    ghost var mid := out.tokens;
    EmitChar(out, '{', Some(Punctuation), code, at + 1);
    PaintedStays(mid, out.tokens, code, at + 1, at + 2, [Piece(at, at + 1, Some(Punctuation))]);
    assert Painted(Kinds(out.tokens), [Piece(at, at + 1, Some(Punctuation))][0]);
  }
}
