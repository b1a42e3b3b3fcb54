// What the script lexer's colours say about the text, and that no character is left to chance.
module ScriptColours {
  import opened Wrappers
  import opened Tokens
  import opened ScriptLexer

  // ---- pieces lie end to end ----

  predicate Chained(pieces: seq<Piece>, from: nat, to: nat)
    decreases |pieces|
  {
    if pieces == [] then from == to
    else pieces[0].from == from && from < pieces[0].to && Chained(pieces[1..], pieces[0].to, to)
  }

  lemma {:induction false} ChainsJoin(a: seq<Piece>, b: seq<Piece>, from: nat, mid: nat, to: nat)
    requires Chained(a, from, mid) && Chained(b, mid, to)
    ensures Chained(a + b, from, to)
    decreases |a|
  {
    if a == [] {
      assert a + b == b;
    } else {
      ChainsJoin(a[1..], b, a[0].to, mid, to);
      assert (a + b)[1..] == a[1..] + b;
    }
  }

  lemma OnePiece(p: Piece)
    requires p.from < p.to
    ensures Chained([p], p.from, p.to)
  {}

  lemma {:induction false} CodeIsChained(v: Vocabulary, code: string, at: nat, stopAtBrace: bool, previous: string,
                                         depth: nat)
    requires at <= |code| + 1
    ensures var r := ReadCode(v, code, at, stopAtBrace, previous, depth); Chained(r.pieces, at, r.end)
    decreases |code| + 1 - at, 1
  {
    if at < |code| && !(stopAtBrace && code[at] == '}' && depth == 0) {
      var (pieces, next, before) := CodeStep(v, code, at, previous);
      CodeStepIsChained(v, code, at, previous);
      CodeIsChained(v, code, next, stopAtBrace, before, Depth(code[at], stopAtBrace, depth));
      var rest := ReadCode(v, code, next, stopAtBrace, before, Depth(code[at], stopAtBrace, depth));
      ChainsJoin(pieces, rest.pieces, at, next, rest.end);
    }
  }

  lemma {:induction false} CodeStepIsChained(v: Vocabulary, code: string, at: nat, previous: string)
    requires at < |code|
    ensures var step := CodeStep(v, code, at, previous); Chained(step.0, at, step.1)
    decreases |code| + 1 - at, 0
  {
    if code[at] == '`' {
      var template := ReadTemplate(v, code, at + 1);
      TemplateIsChained(v, code, at + 1);
      OnePiece(Piece(at, at + 1, Some(String)));
      ChainsJoin([Piece(at, at + 1, Some(String))], template.pieces, at, at + 1, template.end);
    } else {
      var (length, kind) := Matched(v, code, at, previous);
      OnePiece(Piece(at, at + length, kind));
    }
  }

  lemma {:induction false} TemplateIsChained(v: Vocabulary, code: string, at: nat)
    requires at <= |code| + 1
    ensures var r := ReadTemplate(v, code, at); Chained(r.pieces, at, r.end)
    decreases |code| + 1 - at, 1
  {
    if at < |code| && code[at] != '`' {
      var (pieces, next) := TemplateStep(v, code, at);
      TemplateStepIsChained(v, code, at);
      TemplateIsChained(v, code, next);
      var rest := ReadTemplate(v, code, next);
      ChainsJoin(pieces, rest.pieces, at, next, rest.end);
    }
  }

  lemma {:induction false} TemplateStepIsChained(v: Vocabulary, code: string, at: nat)
    requires at < |code| && code[at] != '`'
    ensures var step := TemplateStep(v, code, at); Chained(step.0, at, step.1)
    decreases |code| + 1 - at, 0
  {
    if Pair(code, at, '$', '{') {
      CodeIsChained(v, code, at + 2, true, "", 0);
      ExpressionIsChained(code, at, ReadCode(v, code, at + 2, true, "", 0));
    } else {
      OnePiece(TemplateStep(v, code, at).0[0]);
    }
  }

  lemma {:induction false} ExpressionIsChained(code: string, at: nat, inner: Reading)
    requires Chained(inner.pieces, at + 2, inner.end)
    ensures var (pieces, end) := Enclosed(code, at, inner); Chained(pieces, at, end)
  {
    var first, closed := [Piece(at, at + 2, Some(Punctuation))], ClosingPieces(code, inner.end);
    OnePiece(first[0]);
    if closed != [] { OnePiece(closed[0]); }
    ChainsJoin(first, inner.pieces, at, at + 2, inner.end);
    ChainsJoin(first + inner.pieces, closed, at, inner.end, inner.end + |closed|);
  }

  // ---- nothing is left to chance ----

  lemma {:induction false} ChainDecides(pieces: seq<Piece>, from: nat, to: nat, a: Colours, b: Colours)
    requires Chained(pieces, from, to) && |a| == |b| && AllPainted(a, pieces) && AllPainted(b, pieces)
    ensures forall i | from <= i < to && i < |a| :: a[i] == b[i]
    decreases |pieces|
  {
    if pieces != [] {
      assert pieces[0] in pieces && forall p | p in pieces[1..] :: p in pieces;
      ChainDecides(pieces[1..], pieces[0].to, to, a, b);
    }
  }

  /** The lexer's contract leaves no choice: there is one list of tokens that meets it. */
  lemma OneHighlighting(code: string, s: seq<Token>, t: seq<Token>)
    requires Text(s) == code && Normal(s) && ReadsAs(SCRIPT, code, Kinds(s))
    requires Text(t) == code && Normal(t) && ReadsAs(SCRIPT, code, Kinds(t))
    ensures s == t
  {
    var r := ReadCode(SCRIPT, code, 0, false, "", 0);
    CodeIsChained(SCRIPT, code, 0, false, "", 0);
    ChainDecides(r.pieces, 0, r.end, Kinds(s), Kinds(t));
    NormalIsUnique(s, t);
  }

  // ---- what begins here, told from the text ----

  /** The window the patterns look at is the rest of the text, if that is short enough. */
  lemma WindowShowsText(code: string, at: nat)
    requires at < |code|
    ensures var rest := Slice(code, at, at + WINDOW);
      && 0 < |rest| <= |code| - at && (|code| <= at + WINDOW ==> |rest| == |code| - at)
      && forall i | at <= i < at + |rest| :: code[i] == rest[i - at]
  {}

  /** A line comment goes to the end of the line. */
  lemma {:induction false} LineCommentsAreWhole(v: Vocabulary, code: string, at: nat, previous: string)
    requires at + 2 <= |code| <= at + WINDOW && code[at] == '/' && code[at + 1] == '/'
    ensures var (length, kind) := Matched(v, code, at, previous);
      && kind == Some(Comment) && (at + length < |code| ==> code[at + length] == '\n')
      && forall i | at <= i < at + length :: code[i] != '\n'
  {
    var rest := Slice(code, at, at + WINDOW);
    WindowShowsText(code, at);
    FindIsFirst(rest, '\n', 0);
    assert code[at + 1] == rest[1];
  }

  /** Any other comment goes to the first closing mark, or to the end. */
  lemma {:induction false} BlockCommentsAreWhole(v: Vocabulary, code: string, at: nat, previous: string)
    requires at + 2 <= |code| <= at + WINDOW && code[at] == '/' && code[at + 1] == '*'
    ensures var (length, kind) := Matched(v, code, at, previous);
      && kind == Some(Comment) && length >= 2
      && (at + length < |code| ==> length >= 4 && Pair(code, at + length - 2, '*', '/'))
      && forall i | at + 2 <= i < at + length - 2 :: !Pair(code, i, '*', '/')
  {
    var rest := Slice(code, at, at + WINDOW);
    WindowShowsText(code, at);
    assert code[at + 1] == rest[1];
    FindCloseIsFirst(rest, 2);
    forall i | at + 2 <= i < at + |rest| ensures Pair(code, i, '*', '/') <==> Pair(rest, i - at, '*', '/') {}
  }

  lemma {:induction false} FindCloseIsFirst(s: string, from: nat)
    ensures var found := FindClose(s, from);
      forall i | from <= i && (found.Some? ==> i < found.value) :: !Pair(s, i, '*', '/')
    decreases |s| - from
  {
    if from < |s| && !Pair(s, from, '*', '/') { FindCloseIsFirst(s, from + 1); }
  }

  /** A quotation mark starts a string, which stays on its line. */
  lemma {:induction false} StringsStayOnLine(v: Vocabulary, code: string, at: nat, previous: string)
    requires at < |code| && code[at] in {'"', '\''}
    ensures var (length, kind) := Matched(v, code, at, previous);
      && kind == Some(String) && forall i | at <= i < at + length :: code[i] != '\n'
  {
    var rest := Slice(code, at, at + WINDOW);
    WindowShowsText(code, at);
    StringEndOnLine(rest, 1, rest[0]);
  }

  /** It ends behind the first such quotation mark that no backslash escapes. */
  lemma {:induction false} StringsEndAtQuote(v: Vocabulary, code: string, at: nat, previous: string, e: nat)
    requires at < e < |code| <= at + WINDOW && code[at] in {'"', '\''} && code[e] == code[at]
    requires !Escaped(code, at + 1, e) && (forall j | at < j < e && code[j] == code[at] :: Escaped(code, at + 1, j))
    requires forall j | at < j < e :: !LineEnd(code[j])
    ensures Matched(v, code, at, previous) == (e + 1 - at, Some(String))
  {
    var rest := Slice(code, at, at + WINDOW);
    WindowShowsText(code, at);
    assert rest == code[at..];
    forall j | 0 < j <= e - at { EscapedInWindow(code, at, j); }
    StringEndsThere(rest, 1, rest[0], e - at);
    assert Literal(rest, previous == "" || previous in v.beforeRegex) == (e + 1 - at, Some(String));
  }

  lemma {:induction false} EscapedInWindow(code: string, at: nat, j: nat)
    requires 0 < j && at + j <= |code|
    ensures Escaped(code[at..], 1, j) <==> Escaped(code, at + 1, at + j)
  {
    if j > 1 { EscapedInWindow(code, at, j - 1); }
  }

  lemma {:induction false} StringEndsThere(s: string, at: nat, quote: char, e: nat)
    requires at <= e < |s| && s[e] == quote && quote in {'"', '\''} && !Escaped(s, at, e)
    requires (forall j | at <= j < e && s[j] == quote :: Escaped(s, at, j)) && forall j | at <= j < e :: !LineEnd(s[j])
    ensures StringEnd(s, at, quote) == e + 1
    decreases e - at
  {
    if at < e {
      var next := at + if s[at] == '\\' then 2 else 1;
      assert at + 1 == e && s[at] == '\\' ==> Escaped(s, at, e);
      forall j | next <= j <= e { EscapesFromThere(s, at, next, j); }
      StringEndsThere(s, next, quote, e);
    }
  }

  lemma {:induction false} StringEndOnLine(s: string, from: nat, quote: char)
    requires from <= |s| && quote != '\n'
    ensures forall i | from <= i < StringEnd(s, from, quote) :: s[i] != '\n'
    decreases |s| - from
  {
    if from < |s| && s[from] != '\n' && s[from] != quote {
      if s[from] == '\\' {
        if from + 1 < |s| && !LineEnd(s[from + 1]) { StringEndOnLine(s, from + 2, quote); }
      } else {
        StringEndOnLine(s, from + 1, quote);
      }
    }
  }

  /** A template without expressions ends at the first backquote that no backslash escapes, and is a string. */
  lemma {:induction false} TemplatesEndAtQuote(v: Vocabulary, code: string, at: nat, previous: string, e: nat)
    requires at < e < |code| && code[at] == '`' == code[e] && !Escaped(code, at + 1, e)
    requires forall j | at < j < e :: code[j] != '$' && (code[j] == '`' ==> Escaped(code, at + 1, j))
    ensures var (pieces, next, before) := CodeStep(v, code, at, previous);
      next == e + 1 && before == "`" && forall p | p in pieces :: p.kind == Some(String)
  {
    TemplateEndsThere(v, code, at + 1, e);
  }

  lemma {:induction false} TemplateEndsThere(v: Vocabulary, code: string, at: nat, e: nat)
    requires at <= e < |code| && code[e] == '`' && !Escaped(code, at, e)
    requires forall j | at <= j < e :: code[j] != '$' && (code[j] == '`' ==> Escaped(code, at, j))
    ensures var r := ReadTemplate(v, code, at);
      r.end == e + 1 && forall p | p in r.pieces :: p.kind == Some(String)
    decreases e - at
  {
    if at < e {
      var next := at + if code[at] == '\\' then 2 else 1;
      assert at + 1 == e && code[at] == '\\' ==> Escaped(code, at, e);
      forall j | next <= j <= e { EscapesFromThere(code, at, next, j); }
      TemplateEndsThere(v, code, next, e);
      assert TemplateStep(v, code, at) == ([Piece(at, next, Some(String))], next);
    }
  }

  /** A digit starts a number. */
  lemma {:induction false} DigitsStartNumbers(v: Vocabulary, code: string, at: nat, previous: string)
    requires at < |code| && Digit(code[at])
    ensures Matched(v, code, at, previous).1 == Some(Number)
  {
    WindowShowsText(code, at);
    DigitLiteral(Slice(code, at, at + WINDOW), previous == "" || previous in v.beforeRegex);
  }

  lemma {:induction false} DigitLiteral(rest: string, regex: bool)
    requires rest != "" && Digit(rest[0])
    ensures Literal(rest, regex).0 > 0 && Literal(rest, regex).1 == Some(Number)
  {
  }

  /** A letter, an underscore or a dollar sign starts a word, coloured by itself and what is before and behind it. */
  lemma {:induction false} LettersStartWords(v: Vocabulary, code: string, at: nat, previous: string)
    requires at < |code| && (NameStart(code[at]) || code[at] == '$')
    ensures var (length, kind) := Matched(v, code, at, previous);
      && kind == WordKind(v, code[at..at + length], Slice(code, at + length, at + length + 64), previous)
      && length == WordLength(Slice(code, at, at + WINDOW))
  {
    WindowShowsText(code, at);
    NoLiteral(Slice(code, at, at + WINDOW), previous == "" || previous in v.beforeRegex);
  }

  lemma {:induction false} NoLiteral(rest: string, regex: bool)
    requires rest != "" && rest[0] !in {'/', '"', '\''} && !Digit(rest[0])
    ensures Literal(rest, regex).0 == 0
  {
  }

  /** The longest word there. */
  predicate WholeWord(code: string, at: nat, length: nat)
    requires at + length <= |code|
  {
    (forall i | at <= i < at + length :: WordPart(code[i])) && (at + length < |code| ==> !WordPart(code[at + length]))
  }

  /** The word is taken as far as it goes. */
  lemma {:induction false} WordsAreWhole(v: Vocabulary, code: string, at: nat, previous: string)
    requires at < |code| <= at + WINDOW && (NameStart(code[at]) || code[at] == '$')
    ensures WholeWord(code, at, Matched(v, code, at, previous).0)
  {
    WordIsWhole(code, at, Slice(code, at, at + WINDOW));
    LettersStartWords(v, code, at, previous);
  }

  lemma {:induction false} WordIsWhole(code: string, at: nat, rest: string)
    requires at < |code| && rest == Slice(code, at, at + WINDOW) && |code| <= at + WINDOW
    requires NameStart(code[at]) || code[at] == '$'
    ensures at + WordLength(rest) <= |code| && WholeWord(code, at, WordLength(rest))
  {
    WindowShowsText(code, at);
    SpanIsLongest(rest, 1, WordPart);
  }

  /** A word's colour: by what is before it, by itself, or by what is behind it. */
  lemma {:induction false} WordsByPlace(v: Vocabulary, word: string, after: string, previous: string)
    requires word != ""
    ensures previous == "." && ThenParen(after) ==> WordKind(v, word, after, previous) == Some(Function)
    ensures previous in {".", "?."} && !ThenParen(after) ==> WordKind(v, word, after, previous) == Some(Property)
    ensures previous !in {".", "?."} && word in v.keywords ==> WordKind(v, word, after, previous) == Some(Keyword)
    ensures previous !in {".", "?."} && word !in v.keywords && word in v.types ==>
      WordKind(v, word, after, previous) == Some(Type)
    ensures WordKind(v, word, after, previous) == Some(Function) ==> ThenCall(after) || ThenParen(after)
  {}

  /**
   * Where no value can end, a slash starts a regular expression, which goes to the next slash and has flags behind it.
   */
  lemma {:induction false} RegexIsString(v: Vocabulary, code: string, at: nat, previous: string, e: nat)
    requires (previous == "" || previous in v.beforeRegex) && at + 1 < e < |code| <= at + WINDOW
    requires code[at] == '/' && code[at + 1] != '*' && code[e] == '/'
    requires forall j | at < j < e :: code[j] !in {'/', '\\', '[', '\n'}
    ensures var (length, kind) := Matched(v, code, at, previous);
      && kind == Some(String) && at + length > e && (forall j | e < j < at + length :: RegexFlag(code[j]))
  {
    var rest := Slice(code, at, at + WINDOW);
    WindowShowsText(code, at);
    assert rest[1] == code[at + 1] && rest[e - at] == '/';
    PlainElements(rest, 1, e - at);
    SpanIsLongest(rest, e - at + 1, RegexFlag);
    assert CommentLength(rest) == 0 && StringLength(rest) == 0;
    assert Literal(rest, true) == (RegexLength(rest), Some(String));
    assert forall j | e < j < at + RegexLength(rest) :: code[j] == rest[j - at];
  }

  lemma {:induction false} PlainElements(s: string, from: nat, e: nat)
    requires from <= e < |s| && s[e] == '/' && forall j | from <= j < e :: s[j] !in {'/', '\\', '[', '\n'}
    ensures ElementsEnd(s, from) == e
    decreases e - from
  {
    if from < e { PlainElements(s, from + 1, e); }
  }

  /** Whatever is none of these is punctuation, white space or left plain, one character at a time. */
  lemma {:induction false} WhatIsLeft(v: Vocabulary, code: string, at: nat, previous: string)
    requires at < |code| && code[at] !in {'/', '"', '\''} && !WordPart(code[at])
    ensures var (length, kind) := Matched(v, code, at, previous);
      && (SinglePunctuator(code[at]) ==> kind == Some(Punctuation) && length <= 3)
      && (Space(code[at]) ==> kind == None && forall i | at <= i < at + length :: Space(code[i]))
      && (!SinglePunctuator(code[at]) && !Space(code[at]) ==> kind == None && length == 1)
  {
    var rest := Slice(code, at, at + WINDOW);
    WindowShowsText(code, at);
    NoLiteral(rest, previous == "" || previous in v.beforeRegex);
    MarkOf(rest);
  }

  lemma {:induction false} MarkOf(rest: string)
    requires rest != ""
    ensures var (length, kind) := Mark(rest);
      && (SinglePunctuator(rest[0]) ==> kind == Some(Punctuation) && length <= 3)
      && (Space(rest[0]) ==> kind == None && forall i | 0 <= i < length :: Space(rest[i]))
      && (!SinglePunctuator(rest[0]) && !Space(rest[0]) ==> kind == None && length == 1)
  {
    PunctuatorsAreMarks(rest);
    SpanIsLongest(rest, 1, Space);
  }

  lemma {:induction false} PunctuatorsAreMarks(rest: string)
    requires rest != ""
    ensures PunctuatorLength(rest) > 0 <==> SinglePunctuator(rest[0])
    ensures PunctuatorLength(rest) <= 3
  {
  }
}
