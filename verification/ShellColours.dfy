// What the shell lexer's colours say about the text: here-documents, strings and comments, told from the text alone,
// and that no character is left to chance.
module ShellColours {
  import opened Wrappers
  import opened Tokens
  import opened ShellGrammar
  import opened ShellLexer

  // ---- lines ----

  /** A line of `code` starts at `l`, where lines are counted from `from`. */
  predicate LineStarts(code: string, from: nat, l: nat) { from <= l <= |code| && (l == from || code[l - 1] == '\n') }

  predicate IsLine(code: string, l: nat, e: nat) {
    l <= e <= |code| && (e == |code| || code[e] == '\n') && forall i | l <= i < e :: code[i] != '\n'
  }

  ghost predicate DelimiterAt(code: string, from: nat, h: Heredoc, l: nat, e: nat) {
    LineStarts(code, from, l) && IsLine(code, l, e) && IsDelimiter(code[l..e], h)
  }

  /** The first line equal to the delimiter, leading white space aside if that is stripped. */
  ghost predicate FirstDelimiter(code: string, from: nat, h: Heredoc, l: nat, e: nat) {
    DelimiterAt(code, from, h, l, e) && forall k: nat, f: nat | k < l :: !DelimiterAt(code, from, h, k, f)
  }

  lemma {:induction false} LineStopIsLine(code: string, l: nat, e: nat)
    requires l <= |code|
    ensures IsLine(code, l, e) <==> e == LineStop(code, l)
  {
    FindIsFirst(code, '\n', l);
  }

  lemma {:induction false} DelimiterLineIsFirst(code: string, from: nat, h: Heredoc)
    requires from <= |code|
    ensures var line := DelimiterLine(code, from, h);
      if line.Some? then FirstDelimiter(code, from, h, line.value, LineStop(code, line.value))
      else forall l: nat, e: nat :: !DelimiterAt(code, from, h, l, e)
    decreases |code| - from
  {
    var stop := LineStop(code, from);
    FirstLine(code, from, h);
    if !IsDelimiter(code[from..stop], h) && stop < |code| {
      DelimiterLineIsFirst(code, stop + 1, h);
      forall l: nat, e: nat ensures DelimiterAt(code, from, h, l, e) <==> DelimiterAt(code, stop + 1, h, l, e) {
        LaterDelimiters(code, from, h, l, e);
      }
    }
  }

  /** The first line is the delimiter or is not. */
  lemma {:induction false} FirstLine(code: string, from: nat, h: Heredoc)
    requires from <= |code|
    ensures var stop := LineStop(code, from);
      && (IsDelimiter(code[from..stop], h) ==> FirstDelimiter(code, from, h, from, stop))
      && (!IsDelimiter(code[from..stop], h) && stop == |code| ==>
          forall l: nat, e: nat :: !DelimiterAt(code, from, h, l, e))
  {
    var stop := LineStop(code, from);
    LineStopIsLine(code, from, stop);
    forall l: nat, e: nat | DelimiterAt(code, from, h, l, e) && stop == |code| ensures l == from && e == stop {
      if l != from { LaterLine(code, from, l); }
      LineStopIsLine(code, l, e);
    }
  }

  lemma {:induction false} LaterDelimiters(code: string, from: nat, h: Heredoc, l: nat, e: nat)
    requires from <= |code| && LineStop(code, from) < |code| && !IsDelimiter(code[from..LineStop(code, from)], h)
    ensures DelimiterAt(code, from, h, l, e) <==> DelimiterAt(code, LineStop(code, from) + 1, h, l, e)
  {
    if DelimiterAt(code, from, h, l, e) {
      LineStopIsLine(code, l, e);
      if l != from { LaterLine(code, from, l); }
    }
  }

  lemma LaterLine(code: string, from: nat, l: nat)
    requires from <= |code| && LineStarts(code, from, l) && l != from
    ensures l > LineStop(code, from)
  {
    LineStopIsLine(code, from, LineStop(code, from));
  }

  // ---- here-documents ----

  /** The body is a string up to the delimiter, which is a keyword. */
  ghost predicate BodyColoured(code: string, from: nat, h: Heredoc, kinds: Colours) {
    && (forall l: nat, e: nat | FirstDelimiter(code, from, h, l, e) ::
          Painted(kinds, from, l, Some(String)) && Painted(kinds, l, e, Some(Keyword))
            && Painted(kinds, e, e + 1, None))
    && ((forall l: nat, e: nat :: !DelimiterAt(code, from, h, l, e)) ==> Painted(kinds, from, |code|, Some(String)))
  }

  lemma OneFirst(code: string, from: nat, h: Heredoc, l: nat, e: nat, k: nat, f: nat)
    requires FirstDelimiter(code, from, h, l, e) && FirstDelimiter(code, from, h, k, f)
    ensures l == k && e == f
  {
    LineStopIsLine(code, l, e);
    LineStopIsLine(code, k, f);
  }

  lemma BodyIsColoured(code: string, from: nat, h: Heredoc, kinds: Colours)
    requires from <= |code| && BodyPainted(code, from, h, kinds)
    ensures BodyColoured(code, from, h, kinds)
  {
    DelimiterLineIsFirst(code, from, h);
    var line := DelimiterLine(code, from, h);
    if line.Some? {
      forall l: nat, e: nat | FirstDelimiter(code, from, h, l, e)
        ensures l == line.value && e == LineStop(code, line.value)
      {
        OneFirst(code, from, h, l, e, line.value, LineStop(code, line.value));
      }
    }
  }

  /** The next body starts behind the delimiter's line. */
  lemma NextBodyFollows(code: string, from: nat, h: Heredoc, l: nat, e: nat)
    requires from <= |code| && FirstDelimiter(code, from, h, l, e)
    ensures AfterBody(code, from, h) == if e < |code| then e + 1 else |code|
  {
    DelimiterLineIsFirst(code, from, h);
    var line := DelimiterLine(code, from, h);
    OneFirst(code, from, h, l, e, line.value, LineStop(code, line.value));
  }

  /** Each of the here-documents announced on a line has its body behind it, in order, coloured so. */
  lemma {:induction false} BodiesAreColoured(code: string, from: nat, pending: seq<Heredoc>, kinds: Colours)
    requires from <= |code| && BodiesPainted(code, from, pending, kinds)
    ensures pending != [] ==> BodyColoured(code, from, pending[0], kinds)
    ensures pending != [] ==> BodiesPainted(code, AfterBody(code, from, pending[0]), pending[1..], kinds)
  {
    if pending != [] {
      assert (from, pending[0]) in BodyStarts(code, from, pending);
      BodyIsColoured(code, from, pending[0], kinds);
      var next := AfterBody(code, from, pending[0]);
      assert forall b | b in BodyStarts(code, next, pending[1..]) :: b in BodyStarts(code, from, pending);
    }
  }

  /** Wherever the lexer comes to a line end with a here-document announced, the text behind it is that body. */
  lemma HereDocumentIsString(v: Vocabulary, code: string, kinds: Colours, m: Mode)
    requires AllPainted(v, code, kinds) && m in Modes(v, code, START) && code[m.index] == '\n' && m.heredocs != []
    ensures kinds[m.index] == None && BodyColoured(code, m.index + 1, m.heredocs[0], kinds)
  {
    LineIsPainted(v, code, m, kinds);
    BodiesAreColoured(code, m.index + 1, m.heredocs, kinds);
  }

  lemma LineIsPainted(v: Vocabulary, code: string, m: Mode, kinds: Colours)
    requires m.index < |code| && code[m.index] == '\n' && StepPainted(v, code, m, kinds)
    ensures LinePainted(code, m.index, m.heredocs, kinds)
  {}

  // ---- strings and comments ----

  lemma QuoteIsString(v: Vocabulary, code: string, kinds: Colours, m: Mode, e: nat)
    requires AllPainted(v, code, kinds) && m in Modes(v, code, START) && code[m.index] == '\''
    requires m.index < e <= |code| && forall j | m.index < j < e :: code[j] != '\''
    ensures Painted(kinds, m.index, e, Some(String)) && (e < |code| && code[e] == '\'' ==> kinds[e] == Some(String))
  {
    QuoteEndsLater(code, m.index, m.index + 1, e);
  }

  lemma {:induction false} QuoteEndsLater(code: string, at: nat, from: nat, e: nat)
    requires at < from <= e <= |code| && forall j | from <= j < e :: code[j] != '\''
    ensures var close := Find(code, '\'', from);
      (close.Some? ==> e <= close.value) && (e < |code| && code[e] == '\'' ==> close == Some(e))
    decreases e - from
  {
    if from < e { QuoteEndsLater(code, at, from + 1, e); }
  }

  lemma {:induction false} CommentIsComment(v: Vocabulary, code: string, kinds: Colours, m: Mode, e: nat)
    requires AllPainted(v, code, kinds) && m in Modes(v, code, START) && IsLine(code, m.index, e)
    requires code[m.index] == '#' && (m.index == 0 || Space(code[m.index - 1]))
    ensures Painted(kinds, m.index, e, Some(Comment))
  {
    LineStopIsLine(code, m.index, e);
    CommentIsPainted(v, code, m, kinds);
  }

  lemma {:induction false} CommentIsPainted(v: Vocabulary, code: string, m: Mode, kinds: Colours)
    requires m.index < |code| && CommentAt(code, m.index) && StepPainted(v, code, m, kinds)
    ensures Painted(kinds, m.index, LineStop(code, m.index), Some(Comment))
  {}

  // ---- nothing is left to chance ----

  predicate SameBetween(a: Colours, b: Colours, from: nat, to: nat) {
    |a| == |b| && forall i | from <= i < to && i < |a| :: a[i] == b[i]
  }

  lemma {:induction false} QuotedIsSame(code: string, at: nat, a: Colours, b: Colours)
    requires at <= |code| + 1 && |a| == |b| == |code| && QuotedPainted(code, at, a) && QuotedPainted(code, at, b)
    ensures SameBetween(a, b, at, QuotedStop(code, at))
    decreases |code| + 1 - at
  {
    if at < |code| && code[at] != '"' {
      var next := QuotedNext(code, at);
      assert at in QuotedPieces(code, at);
      assert forall p | p in QuotedPieces(code, next) :: p in QuotedPieces(code, at);
      QuotedIsSame(code, next, a, b);
    }
  }

  lemma {:induction false} BodiesAreSame(code: string, from: nat, pending: seq<Heredoc>, a: Colours, b: Colours)
    requires from <= |code| && |a| == |b| == |code|
    requires BodiesPainted(code, from, pending, a) && BodiesPainted(code, from, pending, b)
    ensures SameBetween(a, b, from, AfterBodies(code, from, pending))
    decreases |pending|
  {
    if pending != [] {
      var next := AfterBody(code, from, pending[0]);
      assert (from, pending[0]) in BodyStarts(code, from, pending);
      assert forall s | s in BodyStarts(code, next, pending[1..]) :: s in BodyStarts(code, from, pending);
      BodiesAreSame(code, next, pending[1..], a, b);
    }
  }

  lemma {:induction false} PlainIsSame(v: Vocabulary, code: string, m: Mode, a: Colours, b: Colours)
    requires m.index < |code| && |a| == |b| == |code| && PlainPainted(v, code, m, a) && PlainPainted(v, code, m, b)
    ensures SameBetween(a, b, m.index, PlainMode(v, code, m).index)
  {}

  lemma {:induction false} SymbolIsSame(v: Vocabulary, code: string, m: Mode, a: Colours, b: Colours)
    requires m.index < |code| && |a| == |b| == |code| && SymbolPainted(v, code, m, a) && SymbolPainted(v, code, m, b)
    ensures SameBetween(a, b, m.index, SymbolMode(v, code, m).index)
  {
    if !MarkAt(code, m.index) { PlainIsSame(v, code, m, a, b); }
  }

  lemma {:induction false} StepIsSame(v: Vocabulary, code: string, m: Mode, a: Colours, b: Colours)
    requires m.index < |code| && |a| == |b| == |code| && StepPainted(v, code, m, a) && StepPainted(v, code, m, b)
    ensures SameBetween(a, b, m.index, NextMode(v, code, m).index)
  {
    if code[m.index] == '\n' {
      LineStep(v, code, m, a);
      LineStep(v, code, m, b);
      LineIsSame(code, m.index, m.heredocs, a, b);
    } else if GapAt(code, m.index) {
      GapStep(v, code, m, a);
      GapStep(v, code, m, b);
      GapIsSame(code, m, a, b);
    } else {
      InkStep(v, code, m, a);
      InkStep(v, code, m, b);
      InkIsSame(v, code, m, a, b);
    }
  }

  lemma {:induction false} InkIsSame(v: Vocabulary, code: string, m: Mode, a: Colours, b: Colours)
    requires m.index < |code| && |a| == |b| == |code| && InkPainted(v, code, m, a) && InkPainted(v, code, m, b)
    ensures SameBetween(a, b, m.index, InkMode(v, code, m).index)
  {
    if QuoteAt(code, m.index) {
      QuoteIsSame(code, m, a, b);
    } else {
      SymbolIsSame(v, code, m, a, b);
    }
  }

  lemma {:induction false} LineIsSame(code: string, i: nat, pending: seq<Heredoc>, a: Colours, b: Colours)
    requires i < |code| && |a| == |b| == |code| && LinePainted(code, i, pending, a) && LinePainted(code, i, pending, b)
    ensures SameBetween(a, b, i, AfterBodies(code, i + 1, pending))
  {
    BodiesAreSame(code, i + 1, pending, a, b);
  }

  lemma {:induction false} GapIsSame(code: string, m: Mode, a: Colours, b: Colours)
    requires m.index < |code| && GapAt(code, m.index) && |a| == |b| == |code|
    requires GapPainted(code, m, a) && GapPainted(code, m, b)
    ensures SameBetween(a, b, m.index, GapMode(code, m).index)
  {}

  lemma {:induction false} QuoteIsSame(code: string, m: Mode, a: Colours, b: Colours)
    requires m.index < |code| && QuoteAt(code, m.index) && |a| == |b| == |code|
    requires QuotePainted(code, m, a) && QuotePainted(code, m, b)
    ensures SameBetween(a, b, m.index, QuoteMode(code, m).index)
  {
    if code[m.index] == '"' { QuotedIsSame(code, m.index + 1, a, b); }
  }

  lemma {:induction false} ColouringIsUnique(v: Vocabulary, code: string, m: Mode, a: Colours, b: Colours)
    requires |a| == |b| == |code|
    requires forall x | x in Modes(v, code, m) :: StepPainted(v, code, x, a) && StepPainted(v, code, x, b)
    ensures SameBetween(a, b, m.index, |code|)
    decreases |code| + 1 - m.index
  {
    if m.index < |code| {
      var n := NextMode(v, code, m);
      assert m in Modes(v, code, m) && forall x | x in Modes(v, code, n) :: x in Modes(v, code, m);
      StepIsSame(v, code, m, a, b);
      ColouringIsUnique(v, code, n, a, b);
    }
  }

  /** The lexer's contract leaves no choice: there is one list of tokens that meets it. */
  lemma OneHighlighting(code: string, s: seq<Token>, t: seq<Token>)
    requires Text(s) == code && Normal(s) && AllPainted(SHELL, code, Kinds(s))
    requires Text(t) == code && Normal(t) && AllPainted(SHELL, code, Kinds(t))
    ensures s == t
  {
    ColouringIsUnique(SHELL, code, START, Kinds(s), Kinds(t));
    NormalIsUnique(s, t);
  }

  /** `$'…'` ends at the first quote that no backslash escapes, and is a string. */
  lemma {:induction false} EscapedIsString(v: Vocabulary, code: string, kinds: Colours, m: Mode, e: nat)
    requires AllPainted(v, code, kinds) && m in Modes(v, code, START) && Pair(code, m.index, '$', '\'')
    requires m.index + 2 <= e <= |code|
      && (forall j | m.index + 2 <= j < e && code[j] == '\'' :: Escaped(code, m.index + 2, j))
    requires e < |code| ==> code[e] == '\'' && !Escaped(code, m.index + 2, e)
    ensures Painted(kinds, m.index, e + 1, Some(String)) && NextMode(v, code, m) == m.(index := Min(e + 1, |code|))
  {
    EscapedEndsThere(code, m.index + 2, e);
    InkStep(v, code, m, kinds);
  }

  lemma {:induction false} EscapedEndsThere(code: string, at: nat, e: nat)
    requires at <= e <= |code| && (forall j | at <= j < e && code[j] == '\'' :: Escaped(code, at, j))
    requires e < |code| ==> code[e] == '\'' && !Escaped(code, at, e)
    ensures Min(EscapedStop(code, at) + 1, |code|) == Min(e + 1, |code|)
    decreases e - at
  {
    if at < e {
      var next := at + if code[at] == '\\' then 2 else 1;
      forall j | next <= j <= e { EscapesFromThere(code, at, next, j); }
      if next <= e {
        EscapedEndsThere(code, next, e);
      } else {
        assert Escaped(code, at, e) && e == |code|;
      }
    }
  }

  /**
   * Double quotes without a dollar sign end at the first quotation mark that no backslash escapes, and are a string.
   */
  lemma {:induction false} DoubleQuotesAreString(v: Vocabulary, code: string, kinds: Colours, m: Mode, e: nat)
    requires AllPainted(v, code, kinds) && m in Modes(v, code, START) && code[m.index] == '"'
    requires m.index < e < |code| && code[e] == '"' && !Escaped(code, m.index + 1, e)
    requires forall j | m.index < j < e ::
      code[j] != '$' && (code[j] == '"' ==> Escaped(code, m.index + 1, j))
    ensures Painted(kinds, m.index, e + 1, Some(String))
    ensures NextMode(v, code, m) == m.(index := e + 1, commandStart := false)
  {
    InkStep(v, code, m, kinds);
    QuotedEndsThere(code, m.index + 1, e, kinds);
  }

  lemma {:induction false} QuotedEndsThere(code: string, at: nat, e: nat, kinds: Colours)
    requires at <= e < |code| && code[e] == '"' && !Escaped(code, at, e)
    requires forall j | at <= j < e :: code[j] != '$' && (code[j] == '"' ==> Escaped(code, at, j))
    ensures QuotedStop(code, at) == e && (QuotedPainted(code, at, kinds) ==> Painted(kinds, at, e, Some(String)))
    decreases e - at
  {
    if at < e {
      var next := at + if code[at] == '\\' then 2 else 1;
      assert at + 1 == e && code[at] == '\\' ==> Escaped(code, at, e);
      forall j | next <= j <= e { EscapesFromThere(code, at, next, j); }
      QuotedEndsThere(code, next, e, kinds);
      PieceIsString(code, at, kinds);
    }
  }

  lemma {:induction false} PieceIsString(code: string, at: nat, kinds: Colours)
    requires at < |code| && code[at] !in {'$', '"'}
    ensures QuotedNext(code, at) == at + if code[at] == '\\' then 2 else 1
    ensures QuotedPainted(code, at, kinds) ==>
      Painted(kinds, at, QuotedNext(code, at), Some(String)) && QuotedPainted(code, QuotedNext(code, at), kinds)
  {
    var next := QuotedNext(code, at);
    assert at in QuotedPieces(code, at) && QuotedKind(code, at) == String;
    assert forall p | p in QuotedPieces(code, next) :: p in QuotedPieces(code, at);
  }

  // ---- where a command can start ----

  /** Inside a substitution a command starts; behind a name in quotes none does. */
  lemma {:induction false} QuotesEndCommands(v: Vocabulary, code: string, m: Mode)
    requires m.index < |code|
    ensures Pair(code, m.index, '$', '(') ==> NextMode(v, code, m) == Mode(m.index + 2, true, m.heredocs)
    ensures code[m.index] in {'\'', '"'} ==>
      !NextMode(v, code, m).commandStart && NextMode(v, code, m).heredocs == m.heredocs
  {
    if Pair(code, m.index, '$', '(') {
      GapStep(v, code, m, []);
    } else if code[m.index] in {'\'', '"'} {
      InkStep(v, code, m, []);
    }
  }

  // ---- words, flags and variables ----

  lemma {:induction false} SpanIsPrefix(s: string, from: nat, to: nat, member: char -> bool)
    requires from <= to <= |s| && (forall i | from <= i < to :: member(s[i])) && (to < |s| ==> !member(s[to]))
    ensures SpanEnd(s, from, member) == to
    decreases |s| - from
  {
    if from < to { SpanIsPrefix(s, from + 1, to, member); }
  }

  /** A word without backslashes, told from the text: it ends at white space, a quote, a variable or an operator. */
  predicate IsWord(code: string, i: nat, e: nat) {
    i < e <= |code| && (forall j | i <= j < e :: !StopChar(code[j]) && code[j] != '\\')
      && (e < |code| ==> StopChar(code[e]))
  }

  lemma {:induction false} WordEndsThere(code: string, i: nat, e: nat)
    requires i <= e <= |code| && (forall j | i <= j < e :: !StopChar(code[j]) && code[j] != '\\')
    requires e < |code| ==> StopChar(code[e])
    ensures WordStop(code, i) == e
    decreases e - i
  {
    if i < e { WordEndsThere(code, i + 1, e); }
  }

  /** Where no space, quote or sign starts, a word does. */
  lemma {:induction false} WordIsPlain(v: Vocabulary, code: string, m: Mode, kinds: Colours)
    requires m.index < |code| && !StopChar(code[m.index]) && !Opens(code[m.index]) && code[m.index] != '#'
    ensures var (end, commandStart) := WordResult(v, code, m.index, m.commandStart);
      && NextMode(v, code, m) == m.(index := end, commandStart := commandStart)
      && (StepPainted(v, code, m, kinds) ==> WordPainted(v, code, m.index, m.commandStart, kinds))
  {
    assert !GapAt(code, m.index) && !QuoteAt(code, m.index) && !MarkAt(code, m.index);
    InkStep(v, code, m, kinds);
    WordStep(v, code, m, kinds);
  }

  /** Where a command can start, a word is a keyword or names a command, and after some a command can start again. */
  lemma {:induction false} CommandIsColoured(v: Vocabulary, code: string, kinds: Colours, m: Mode, e: nat)
    requires AllPainted(v, code, kinds) && m in Modes(v, code, START) && m.commandStart && IsWord(code, m.index, e)
    requires NameStart(code[m.index]) && '=' !in code[m.index..e]
    ensures Painted(kinds, m.index, e, Some(if code[m.index..e] in v.keywords then Keyword else Function))
    ensures NextMode(v, code, m) == m.(index := e, commandStart := code[m.index..e] in v.resets)
  {
    WordEndsThere(code, m.index, e);
    WordIsPlain(v, code, m, kinds);
    var word := Slice(code, m.index, e);
    assert word == code[m.index..e];
    assert NameEnd(word, 0) < |word| ==> word[NameEnd(word, 0)] in word;
  }

  /** `NAME=value` is a variable, its sign and its value, and the command is still to come. */
  lemma {:induction false} AssignmentIsColoured(v: Vocabulary, code: string, kinds: Colours, m: Mode, equals: nat,
                                                e: nat)
    requires AllPainted(v, code, kinds) && m in Modes(v, code, START) && m.commandStart && IsWord(code, m.index, e)
    requires m.index < equals < e && NameStart(code[m.index]) && code[equals] == '='
    requires forall j | m.index <= j < equals :: NamePart(code[j])
    ensures Painted(kinds, m.index, equals, Some(Property)) && Painted(kinds, equals, equals + 1, Some(Punctuation))
    ensures NextMode(v, code, m) == m.(index := e)
  {
    WordEndsThere(code, m.index, e);
    WordIsPlain(v, code, m, kinds);
    NameBeforeSign(code, m.index, equals, e);
  }

  lemma {:induction false} NameBeforeSign(code: string, from: nat, equals: nat, e: nat)
    requires from < equals < e <= |code| && NameStart(code[from]) && code[equals] == '='
    requires forall j | from <= j < equals :: NamePart(code[j])
    ensures var word := Slice(code, from, e); NameEnd(word, 0) == equals - from && IsAssignment(word)
  {
    var word := Slice(code, from, e);
    assert forall j | 0 <= j < |word| :: word[j] == code[from + j];
    SpanIsPrefix(word, 0, equals - from, NamePart);
  }

  /** A brace in the middle of a command belongs to its word. */
  lemma {:induction false} BraceBeginsWord(v: Vocabulary, code: string, m: Mode)
    requires m.index + 1 < |code| && code[m.index] in {'{', '}'} && !m.commandStart
    requires !Space(code[m.index + 1]) && code[m.index + 1] != ';'
    ensures NextMode(v, code, m) == m.(index := WordStop(code, m.index)) && WordStop(code, m.index) > m.index
  {
    InkStep(v, code, m, []);
    WordStep(v, code, m, []);
  }

  predicate AllDigits(s: string) { s != "" && forall i | 0 <= i < |s| :: Digit(s[i]) }

  /** A number: a sign or none, digits, and a point with digits or none. */
  lemma {:induction false} NumbersAreDecimal(s: string, minus: bool, whole: string, fraction: Option<string>)
    requires AllDigits(whole) && (fraction.Some? ==> AllDigits(fraction.value))
    requires s == (if minus then "-" else "") + whole + (if fraction.Some? then "." + fraction.value else "")
    ensures IsNumber(s)
  {
    var sign := if minus then 1 else 0;
    assert forall i | 0 <= i < |whole| :: s[sign + i] == whole[i];
    if fraction.Some? {
      assert s[sign + |whole|] == '.';
      assert forall i | 0 <= i < |fraction.value| :: s[sign + |whole| + 1 + i] == fraction.value[i];
      SpanIsPrefix(s, sign + |whole| + 1, |s|, Digit);
    }
    SpanIsPrefix(s, sign, sign + |whole|, Digit);
  }

  /** Behind a command, a word of one or two dashes, a letter or digit and the like is a flag. */
  lemma {:induction false} FlagIsColoured(v: Vocabulary, code: string, kinds: Colours, m: Mode, e: nat)
    requires AllPainted(v, code, kinds) && m in Modes(v, code, START) && !m.commandStart && IsWord(code, m.index, e)
    requires m.index + 1 < e && code[m.index] == '-' && NamePart(code[m.index + 1]) && code[m.index + 1] != '_'
    requires forall j | m.index < j < e :: FlagPart(code[j])
    ensures Painted(kinds, m.index, e, Some(Type)) && NextMode(v, code, m) == m.(index := e)
  {
    PlainArgument(v, code, m, e, kinds);
    WholeWordIsFlag(code, m.index, e, kinds);
  }

  lemma {:induction false} PlainArgument(v: Vocabulary, code: string, m: Mode, e: nat, kinds: Colours)
    requires IsWord(code, m.index, e) && !m.commandStart && !Opens(code[m.index]) && code[m.index] != '#'
    ensures NextMode(v, code, m) == m.(index := e)
    ensures StepPainted(v, code, m, kinds) ==> ArgumentPainted(code, m.index, e, kinds)
  {
    WordEndsThere(code, m.index, e);
    WordIsPlain(v, code, m, kinds);
  }

  lemma {:induction false} WholeWordIsFlag(code: string, from: nat, end: nat, kinds: Colours)
    requires from + 1 < end <= |code| && code[from] == '-' && NamePart(code[from + 1]) && code[from + 1] != '_'
    requires forall j | from < j < end :: FlagPart(code[j])
    ensures ArgumentPainted(code, from, end, kinds) ==> Painted(kinds, from, end, Some(Type))
  {
    var word := Slice(code, from, end);
    assert |word| == end - from && forall j | 0 <= j < |word| :: word[j] == code[from + j];
    SpanIsPrefix(word, 1, |word|, FlagPart);
    assert FlagEnd(word) == |word|;
  }

  /** A name behind a dollar sign is a variable; no command can start behind it. */
  lemma {:induction false} VariableIsColoured(v: Vocabulary, code: string, kinds: Colours, m: Mode, e: nat)
    requires AllPainted(v, code, kinds) && m in Modes(v, code, START) && code[m.index] == '$'
    requires m.index + 1 < e <= |code| && e < m.index + 64 && NameStart(code[m.index + 1])
    requires (forall j | m.index < j < e :: NamePart(code[j])) && (e < |code| ==> !NamePart(code[e]))
    ensures Painted(kinds, m.index, e, Some(Property))
    ensures NextMode(v, code, m) == m.(index := e, commandStart := false)
  {
    VariableEndsThere(code, m.index, e);
    VariableStep(v, code, m, kinds);
  }

  lemma {:induction false} VariableEndsThere(code: string, i: nat, e: nat)
    requires Is(code, i, '$') && i + 1 < e <= |code| && e < i + 64 && NameStart(code[i + 1])
    requires (forall j | i < j < e :: NamePart(code[j])) && (e < |code| ==> !NamePart(code[e]))
    ensures VariableEnd(code, i) == e
  {
    var window := Slice(code, i, i + 64);
    assert forall j | 0 <= j < |window| :: window[j] == code[i + j];
    SpanIsPrefix(window, 1, e - i, NamePart);
  }

  lemma {:induction false} VariableStep(v: Vocabulary, code: string, m: Mode, kinds: Colours)
    requires VariableHere(code, m.index) && m.index + 1 < |code| && NameStart(code[m.index + 1])
    ensures var end := VariableEnd(code, m.index);
      && NextMode(v, code, m) == m.(index := end, commandStart := false)
      && (StepPainted(v, code, m, kinds) ==> Painted(kinds, m.index, end, Some(Property)))
  {
    assert !GapAt(code, m.index) && !QuoteAt(code, m.index);
    InkStep(v, code, m, kinds);
  }

  // ---- from the announcement to the body ----

  /** `cat`, a mark and the end of the line. */
  function CatLine(word: string, dash: bool, rest: string): string {
    "cat " + ((if dash then "<<-" else "<<") + (word + ("\n" + rest)))
  }

  /** Where the mark's word starts. */
  function WordAt(dash: bool): nat { if dash then 7 else 6 }

  lemma CatLineParts(word: string, dash: bool, rest: string)
    requires Identifier(word)
    ensures var (code, w) := (CatLine(word, dash, rest), WordAt(dash));
      && |code| == w + |word| + 1 + |rest| && code[0] == 'c' && code[1] == 'a' && code[2] == 't' && code[3] == ' '
      && code[4] == '<' && code[5] == '<' && (dash ==> code[6] == '-') && code[w + |word|] == '\n'
      && code[w..w + |word|] == word && code[w + |word| + 1..] == rest && NameStart(code[w])
      && forall i | w <= i < w + |word| :: NamePart(code[i])
  {
    var (code, w) := (CatLine(word, dash, rest), WordAt(dash));
    assert forall i | 0 <= i < |word| :: code[w + i] == word[i];
    forall i | w <= i < w + |word| ensures NamePart(code[i]) { assert code[w + (i - w)] == word[i - w]; }
    assert code[w + 0] == word[0];
  }

  lemma MarkOfCatLine(word: string, dash: bool, rest: string)
    requires Identifier(word)
    ensures HeredocHere(CatLine(word, dash, rest), 4) == Some((WordAt(dash) + |word|, Heredoc(word, dash)))
  {
    var (code, w) := (CatLine(word, dash, rest), WordAt(dash));
    CatLineParts(word, dash, rest);
    SpanIsPrefix(code, w, w + |word|, NamePart);
    assert NamePart(code[w]);
    assert SpanEnd(code, w, Blank) == w;
  }

  lemma {:induction false} CatIsWord(word: string, dash: bool, rest: string)
    requires Identifier(word)
    ensures var code := CatLine(word, dash, rest);
      WordStop(code, 0) == 3 && Slice(code, 0, 3) == "cat" && OperatorAt(code, 0, true) == 0 && NameEnd("cat", 0) == 3
  {
    var code := CatLine(word, dash, rest);
    CatLineParts(word, dash, rest);
    assert Stops(code, 3) && WordStop(code, 3) == 3 && WordStop(code, 2) == 3 && WordStop(code, 1) == 3;
    var window := Slice(code, 0, 4);
    assert |window| == 4 && window[0] == 'c' && window[1] == 'a';
    assert SpanEnd(window, 0, Digit) == 0;
    SpanIsPrefix("cat", 0, 3, NamePart);
  }

  lemma LetterIsSymbol(v: Vocabulary, code: string, m: Mode, kinds: Colours)
    requires m.index < |code| && NameStart(code[m.index])
    ensures code[m.index] != '$' && HeredocHere(code, m.index).None?
    ensures NextMode(v, code, m) == SymbolMode(v, code, m)
    ensures StepPainted(v, code, m, kinds) == SymbolPainted(v, code, m, kinds)
  {
    assert code[m.index] != '\n' && !GapAt(code, m.index) && !QuoteAt(code, m.index);
  }

  /** A command's name, where no operator starts. */
  lemma NameStep(v: Vocabulary, code: string, m: Mode, end: nat, kinds: Colours)
    requires m.index < |code| && NameStart(code[m.index]) && m.commandStart && OperatorAt(code, m.index, true) == 0
    requires end == WordStop(code, m.index) && end > m.index
    requires var word := Slice(code, m.index, end); !IsAssignment(word) && word !in v.resets && word !in v.keywords
    ensures NextMode(v, code, m) == m.(index := end, commandStart := false)
    ensures StepPainted(v, code, m, kinds) ==> Painted(kinds, m.index, end, Some(Function))
  {
    LetterIsSymbol(v, code, m, kinds);
    NamePlace(v, code, m, end, kinds);
  }

  lemma NamePlace(v: Vocabulary, code: string, m: Mode, end: nat, kinds: Colours)
    requires m.index < |code| && code[m.index] != '$' && HeredocHere(code, m.index).None?
    requires m.commandStart && OperatorAt(code, m.index, true) == 0 && end == WordStop(code, m.index) && end > m.index
    requires var word := Slice(code, m.index, end); !IsAssignment(word) && word !in v.resets && word !in v.keywords
    ensures SymbolMode(v, code, m) == m.(index := end, commandStart := false)
    ensures SymbolPainted(v, code, m, kinds) ==> Painted(kinds, m.index, end, Some(Function))
  {}

  lemma MarkStep(v: Vocabulary, code: string, m: Mode, kinds: Colours)
    requires m.index < |code| && HeredocHere(code, m.index).Some?
    ensures var found := HeredocHere(code, m.index).value;
      && NextMode(v, code, m) == m.(index := found.0, heredocs := m.heredocs + [found.1])
      && (StepPainted(v, code, m, kinds) ==> Painted(kinds, m.index, found.0, Some(Punctuation)))
  {
    assert !GapAt(code, m.index) && !QuoteAt(code, m.index);
  }

  lemma BlankStep(v: Vocabulary, code: string, m: Mode, end: nat)
    requires m.index < |code| && Blank(code[m.index]) && end == SpanEnd(code, m.index, Blank)
    ensures NextMode(v, code, m) == m.(index := end)
  {}

  lemma CatIsNoKeyword()
    ensures "cat" !in SHELL.resets && "cat" !in SHELL.keywords && !IsAssignment("cat")
  {
    var cat := "cat";
    assert |cat| == 3 && cat[0] == 'c' && cat[1] == 'a';
    SpanIsPrefix(cat, 0, 3, NamePart);
  }

  /** What there is to know of such a line. */
  predicate ReadsAsCat(code: string, end: nat, h: Heredoc) {
    && |code| > 6 && NameStart(code[0]) && code[3] == ' ' && code[4] == '<'
    && OperatorAt(code, 0, true) == 0 && WordStop(code, 0) == 3 && Slice(code, 0, 3) == "cat"
    && HeredocHere(code, 4) == Some((end, h)) && Is(code, end, '\n')
  }

  lemma CatLineReads(word: string, dash: bool, rest: string)
    requires Identifier(word)
    ensures ReadsAsCat(CatLine(word, dash, rest), WordAt(dash) + |word|, Heredoc(word, dash))
  {
    CatLineParts(word, dash, rest);
    CatIsWord(word, dash, rest);
    MarkOfCatLine(word, dash, rest);
  }

  /** The places where the lexer stands on that line. */
  lemma {:induction false} CatModes(v: Vocabulary, code: string, end: nat, h: Heredoc)
    requires ReadsAsCat(code, end, h) && "cat" !in v.resets && "cat" !in v.keywords && !IsAssignment("cat")
    ensures START in Modes(v, code, START) && Mode(4, false, []) in Modes(v, code, START)
    ensures Mode(end, false, [h]) in Modes(v, code, START)
  {
    var m1, m2, m3 := Mode(3, false, []), Mode(4, false, []), Mode(end, false, [h]);
    NameStep(v, code, START, 3, []);
    SpanIsPrefix(code, 3, 4, Blank);
    BlankStep(v, code, m1, 4);
    MarkStep(v, code, m2, []);
    LaterPlace(v, code, m3, m3);
    LaterPlace(v, code, m2, m3);
    LaterPlace(v, code, m1, m3);
    LaterPlace(v, code, m1, m2);
    LaterPlace(v, code, START, m3);
    LaterPlace(v, code, START, m2);
  }

  lemma LaterPlace(v: Vocabulary, code: string, m: Mode, x: Mode)
    requires m.index < |code| && (x == m || x == NextMode(v, code, m) || x in Modes(v, code, NextMode(v, code, m)))
    requires x.index < |code|
    ensures m in Modes(v, code, m) && x in Modes(v, code, m)
  {}

  lemma {:induction false} CatColours(v: Vocabulary, code: string, end: nat, h: Heredoc, kinds: Colours)
    requires ReadsAsCat(code, end, h) && "cat" !in v.resets && "cat" !in v.keywords && !IsAssignment("cat")
    requires AllPainted(v, code, kinds)
    ensures Painted(kinds, 0, 3, Some(Function)) && Painted(kinds, 4, end, Some(Punctuation))
    ensures BodyColoured(code, end + 1, h, kinds)
  {
    CatModes(v, code, end, h);
    CatPieces(v, code, end, h, kinds);
    HereDocumentIsString(v, code, kinds, Mode(end, false, [h]));
  }

  lemma CatPieces(v: Vocabulary, code: string, end: nat, h: Heredoc, kinds: Colours)
    requires ReadsAsCat(code, end, h) && "cat" !in v.resets && "cat" !in v.keywords && !IsAssignment("cat")
    requires StepPainted(v, code, START, kinds) && StepPainted(v, code, Mode(4, false, []), kinds)
    ensures Painted(kinds, 0, 3, Some(Function)) && Painted(kinds, 4, end, Some(Punctuation))
  {
    NameStep(v, code, START, 3, kinds);
    MarkStep(v, code, Mode(4, false, []), kinds);
  }

  /** From announcement to delimiter: the mark is punctuation, and the text up to its delimiter line a string. */
  lemma CatHereDocument(word: string, dash: bool, rest: string, kinds: Colours)
    requires Identifier(word) && AllPainted(SHELL, CatLine(word, dash, rest), kinds)
    ensures var (code, w) := (CatLine(word, dash, rest), WordAt(dash));
      && Painted(kinds, 0, 3, Some(Function)) && Painted(kinds, 4, w + |word|, Some(Punctuation))
      && BodyColoured(code, w + |word| + 1, Heredoc(word, dash), kinds)
  {
    CatLineReads(word, dash, rest);
    CatIsNoKeyword();
    CatColours(SHELL, CatLine(word, dash, rest), WordAt(dash) + |word|, Heredoc(word, dash), kinds);
  }
}
