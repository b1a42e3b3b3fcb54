// The shell lexer: the coloured pieces put together are the source, every character has the kind the grammar gives it,
// and solid colours mean what they say.
module ShellLexer {
  import opened Wrappers
  import opened Tokens
  import opened ShellGrammar

  lemma FlagName(word: string)
    requires FlagEnd(word) > 0 && (FlagEnd(word) == |word| || word[FlagEnd(word)] == '=')
    ensures Find(word, '=', 0) == if FlagEnd(word) == |word| then None else Some(FlagEnd(word))
    ensures FlagEnd(word[..FlagEnd(word)]) == FlagEnd(word)
  {
    var end := FlagEnd(word);
    var dashes := if Pair(word, 0, '-', '-') then 2 else 1;
    assert forall i | 0 <= i < dashes :: word[i] == '-';
    SpanOfPrefix(word, dashes, end, FlagPart);
    FindPast(word, 0, dashes, end);
    assert end > dashes;
    assert Pair(word[..end], 0, '-', '-') == Pair(word, 0, '-', '-');
  }

  lemma {:induction false} FindPast(word: string, from: nat, dashes: nat, end: nat)
    requires from <= end && dashes <= end <= |word| && end == SpanEnd(word, dashes, FlagPart)
    requires forall i | 0 <= i < dashes :: word[i] == '-'
    ensures Find(word, '=', from) == Find(word, '=', end)
    decreases end - from
  {
    if from < end {
      SpanIsLongest(word, dashes, FlagPart);
      FindPast(word, from + 1, dashes, end);
    }
  }

  // ---- what the colours promise ----

  /** Kinds given to whole words and comments only: such a token is never joined with another. */
  predicate Solid(kind: Option<Kind>) {
    kind in {Some(Comment), Some(Number), Some(Keyword), Some(Type), Some(Function)}
  }

  predicate Fits(v: Vocabulary, value: string, kind: Option<Kind>) {
    && (kind == Some(Comment) ==> Is(value, 0, '#') && '\n' !in value)
    && (kind == Some(Number) ==> IsNumber(value))
    && (kind == Some(Keyword) ==> value in v.keywords || Identifier(TrimStart(value)))
    && (kind == Some(Type) ==> value != "" && FlagEnd(value) == |value|)
    && (kind == Some(Function) ==> value !in v.keywords && value != "" && !StopChar(value[0]))
    && (kind == Some(Property) ==> value != "" && (value[0] == '$' || NameStart(value[0])))
    && (kind == Some(Punctuation) ==> value != "" && Opens(value[0]))
    && kind != Some(Tag)
  }

  predicate Sound(v: Vocabulary, tokens: seq<Token>) { forall t | t in tokens :: Fits(v, t.text, t.kind) }

  predicate LastSolid(tokens: seq<Token>) { tokens != [] && Solid(tokens[|tokens| - 1].kind) }

  ghost predicate Coloured(v: Vocabulary, tokens: seq<Token>, code: string, index: nat) {
    Normal(tokens) && Sound(v, tokens) && Covers(Text(tokens), code, index)
  }

  /** `code` is coloured up to `index`; if the last token is solid, what follows cannot continue it. */
  ghost predicate Lexed(v: Vocabulary, tokens: seq<Token>, code: string, index: nat) {
    Coloured(v, tokens, code, index) && (LastSolid(tokens) && index < |code| ==> Stops(code, index))
  }

  lemma PushedFits(v: Vocabulary, tokens: seq<Token>, value: string, kind: Option<Kind>)
    requires Sound(v, tokens) && Fits(v, value, kind) && (Solid(kind) ==> !LastSolid(tokens))
    ensures Sound(v, Pushed(tokens, value, kind))
    ensures value != "" ==> (LastSolid(Pushed(tokens, value, kind)) <==> Solid(kind))
  {}

  // ---- kinds given to the source so far ----

  /** The colouring goes on. */
  ghost predicate Continues(was: seq<Token>, now: seq<Token>) { Kinds(was) <= Kinds(now) }

  lemma ColouredLength(v: Vocabulary, tokens: seq<Token>, code: string, index: nat)
    requires Coloured(v, tokens, code, index)
    ensures |Kinds(tokens)| == Min(index, |code|)
  {
    KindsLength(tokens);
  }

  lemma GivesLonger(v: Vocabulary, a: seq<Token>, b: seq<Token>, code: string, mid: nat, end: nat)
    requires Coloured(v, a, code, mid) && Coloured(v, b, code, end) && Continues(a, b)
    ensures Longer(Kinds(a), Kinds(b), code, mid)
  {
    ColouredLength(v, a, code, mid);
    ColouredLength(v, b, code, end);
  }

  lemma PushPaints(v: Vocabulary, tokens: seq<Token>, value: string, kind: Option<Kind>, code: string, from: nat,
                   to: nat)
    requires Coloured(v, tokens, code, from) && from <= to && value == Slice(code, from, to)
    ensures Continues(tokens, Pushed(tokens, value, kind))
      && Painted(Kinds(Pushed(tokens, value, kind)), from, to, kind)
  {
    ColouredLength(v, tokens, code, from);
    PushAppendsKinds(tokens, value, kind);
  }

  /** Pushes the next stretch of the source, in a colour that may join the previous one. */
  method Emit(ghost v: Vocabulary, out: Out, value: string, kind: Option<Kind>, ghost code: string, ghost from: nat,
              ghost to: nat)
    requires Lexed(v, out.tokens, code, from) && from <= to && value == Slice(code, from, to)
    requires kind in {None, Some(String), Some(Property), Some(Punctuation)} && (value != "" ==> Fits(v, value, kind))
    modifies out
    ensures Lexed(v, out.tokens, code, to)
    ensures if value == "" then out.tokens == old(out.tokens) else !LastSolid(out.tokens)
    ensures Continues(old(out.tokens), out.tokens) && Painted(Kinds(out.tokens), from, to, kind)
  {
    CoversOn(Text(out.tokens), code, from, to);
    PushPaints(v, out.tokens, value, kind, code, from, to);
    if value != "" { PushedFits(v, out.tokens, value, kind); }
    out.Push(value, kind);
  }

  /** Pushes one character. */
  method EmitChar(ghost v: Vocabulary, out: Out, c: char, kind: Option<Kind>, ghost code: string, ghost from: nat)
    requires Coloured(v, out.tokens, code, from) && Is(code, from, c)
    requires kind in {None, Some(String)} || (kind == Some(Punctuation) && Opens(c))
    modifies out
    ensures Lexed(v, out.tokens, code, from + 1) && !LastSolid(out.tokens)
    ensures Continues(old(out.tokens), out.tokens) && Painted(Kinds(out.tokens), from, from + 1, kind)
  {
    CoversOn(Text(out.tokens), code, from, from + 1);
    assert Slice(code, from, from + 1) == [c];
    PushPaints(v, out.tokens, [c], kind, code, from, from + 1);
    PushedFits(v, out.tokens, [c], kind);
    out.Push([c], kind);
  }

  /** Pushes a whole comment or word. */
  method EmitSolid(ghost v: Vocabulary, out: Out, value: string, kind: Kind, ghost code: string, ghost from: nat,
                   ghost to: nat)
    requires Coloured(v, out.tokens, code, from) && from <= to && value == Slice(code, from, to)
    requires value != "" && Solid(Some(kind)) && Fits(v, value, Some(kind)) && !LastSolid(out.tokens)
    modifies out
    ensures Coloured(v, out.tokens, code, to)
    ensures (to < |code| ==> Stops(code, to)) ==> Lexed(v, out.tokens, code, to)
    ensures Continues(old(out.tokens), out.tokens) && Painted(Kinds(out.tokens), from, to, Some(kind))
  {
    CoversOn(Text(out.tokens), code, from, to);
    PushPaints(v, out.tokens, value, Some(kind), code, from, to);
    PushedFits(v, out.tokens, value, Some(kind));
    out.Push(value, Some(kind));
  }

  // ---- the lexer ----

  /** Every character has the kind that the piece the lexer finds it in gives it. */
  ghost predicate AllPainted(v: Vocabulary, code: string, kinds: Colours) {
    |kinds| == |code| && forall m | m in Modes(v, code, START) :: StepPainted(v, code, m, kinds)
  }

  /**
   * Colours all of `code`: nothing is lost, tokens are joined as far as possible, every character has its kind, and
   * every solid colour is deserved.
   */
  method HighlightShell(code: string, out: Out)
    requires out.tokens == []
    modifies out
    ensures Text(out.tokens) == code
    ensures Normal(out.tokens)
    ensures AllPainted(SHELL, code, Kinds(out.tokens))
    ensures Sound(SHELL, out.tokens)
  {
    Lex(SHELL, code, out);
  }

  ghost predicate Announced(heredocs: seq<Heredoc>) { forall h | h in heredocs :: Identifier(h.word) }

  /** These pieces lie before `end` and are painted. */
  ghost predicate DonePainted(v: Vocabulary, code: string, done: seq<Mode>, end: nat, kinds: Colours) {
    forall x | x in done :: x.index < |code| && NextMode(v, code, x).index <= end && StepPainted(v, code, x, kinds)
  }

  lemma DoneStays(v: Vocabulary, code: string, done: seq<Mode>, end: nat, a: Colours, b: Colours)
    requires DonePainted(v, code, done, end, a) && Longer(a, b, code, end)
    ensures DonePainted(v, code, done, end, b)
  {
    forall x | x in done ensures StepPainted(v, code, x, b) {
      StepStays(v, code, x, a, b);
    }
  }

  /** What is done so far is painted, and the rest of the places are still ahead. */
  ghost predicate PaintedUpTo(v: Vocabulary, code: string, done: seq<Mode>, m: Mode, kinds: Colours) {
    done + Modes(v, code, m) == Modes(v, code, START) && DonePainted(v, code, done, m.index, kinds)
  }

  lemma OneMorePainted(v: Vocabulary, code: string, done: seq<Mode>, m: Mode, n: Mode, a: Colours, b: Colours)
    requires m.index < |code| && n == NextMode(v, code, m) && PaintedUpTo(v, code, done, m, a)
    requires Longer(a, b, code, m.index) && StepPainted(v, code, m, b)
    ensures PaintedUpTo(v, code, done + [m], n, b)
  {
    assert Modes(v, code, m) == [m] + Modes(v, code, n);
    assert done + [m] + Modes(v, code, n) == done + ([m] + Modes(v, code, n));
    DoneStays(v, code, done, m.index, a, b);
  }

  method Lex(v: Vocabulary, code: string, out: Out)
    requires out.tokens == []
    modifies out
    ensures Normal(out.tokens) && Sound(v, out.tokens) && Text(out.tokens) == code
    ensures AllPainted(v, code, Kinds(out.tokens))
  {
    var m := START;
    var parens: seq<int> := [];
    ghost var done: seq<Mode> := [];
    while m.index < |code|
      invariant Lexed(v, out.tokens, code, m.index) && Announced(m.heredocs)
      invariant PaintedUpTo(v, code, done, m, Kinds(out.tokens))
      decreases |code| + 1 - m.index
    {
      ghost var before, was := out.tokens, m;
      m, parens := Piece(v, code, out, m, parens);
      GivesLonger(v, before, out.tokens, code, was.index, m.index);
      OneMorePainted(v, code, done, was, m, Kinds(before), Kinds(out.tokens));
      done := done + [was];
    }
    ColouredLength(v, out.tokens, code, m.index);
  }

  /** One piece of the source. */
  method Piece(v: Vocabulary, code: string, out: Out, m: Mode, open: seq<int>) returns (n: Mode, parens: seq<int>)
    requires m.index < |code| && Lexed(v, out.tokens, code, m.index) && Announced(m.heredocs)
    modifies out
    ensures n == NextMode(v, code, m) && StepPainted(v, code, m, Kinds(out.tokens))
    ensures Lexed(v, out.tokens, code, n.index) && Announced(n.heredocs) && Continues(old(out.tokens), out.tokens)
  {
    var c := code[m.index];
    parens := open;
    if c == '\n' {
      n := Line(v, code, out, m);
    } else if Blank(c) || (c == '\\' && Is(code, m.index + 1, '\n'))
       || (c == '#' && (m.index == 0 || Space(code[m.index - 1]))) || (c == '$' && Is(code, m.index + 1, '(')) {
      n := Gap(v, code, out, m);
      if c == '$' { parens := parens + [1]; }
    } else {
      n, parens := Ink(v, code, out, m, parens);
    }
  }

  method Line(ghost v: Vocabulary, code: string, out: Out, m: Mode) returns (n: Mode)
    requires Is(code, m.index, '\n') && Lexed(v, out.tokens, code, m.index) && Announced(m.heredocs)
    modifies out
    ensures n == NextMode(v, code, m) && n.heredocs == [] && StepPainted(v, code, m, Kinds(out.tokens))
    ensures Lexed(v, out.tokens, code, n.index) && Continues(old(out.tokens), out.tokens)
  {
    var index := NextLine(v, code, out, m.index, m.heredocs);
    LineStep(v, code, m, Kinds(out.tokens));
    n := Mode(index, true, []);
  }

  method Gap(ghost v: Vocabulary, code: string, out: Out, m: Mode) returns (n: Mode)
    requires m.index < |code| && GapAt(code, m.index) && Lexed(v, out.tokens, code, m.index)
    modifies out
    ensures n == NextMode(v, code, m) && n.heredocs == m.heredocs && StepPainted(v, code, m, Kinds(out.tokens))
    ensures Lexed(v, out.tokens, code, n.index) && Continues(old(out.tokens), out.tokens)
  {
    n := InGap(v, code, out, m);
    GapStep(v, code, m, Kinds(out.tokens));
  }

  method InGap(ghost v: Vocabulary, code: string, out: Out, m: Mode) returns (n: Mode)
    requires m.index < |code| && GapAt(code, m.index) && Lexed(v, out.tokens, code, m.index)
    modifies out
    ensures n == GapMode(code, m) && n.heredocs == m.heredocs && Lexed(v, out.tokens, code, n.index)
    ensures Continues(old(out.tokens), out.tokens) && GapPainted(code, m, Kinds(out.tokens))
  {
    var index, c := m.index, code[m.index];
    if Blank(c) {
      var end := BlankEnd(code, index);
      Emit(v, out, Slice(code, index, end), None, code, index, end);
      return m.(index := end);
    }
    if c == '#' {
      index := LineComment(v, code, out, index);
      return m.(index := index);
    }
    PairOf(v, code, out, index);
    return if c == '$' then m.(index := index + 2, commandStart := true) else m.(index := index + 2);
  }

  method Ink(v: Vocabulary, code: string, out: Out, m: Mode, open: seq<int>) returns (n: Mode, parens: seq<int>)
    requires m.index < |code| && code[m.index] != '\n' && !GapAt(code, m.index)
    requires Lexed(v, out.tokens, code, m.index) && Announced(m.heredocs)
    modifies out
    ensures n == NextMode(v, code, m) && StepPainted(v, code, m, Kinds(out.tokens))
    ensures Lexed(v, out.tokens, code, n.index) && Announced(n.heredocs) && Continues(old(out.tokens), out.tokens)
  {
    n, parens := QuoteOrSymbol(v, code, out, m, open);
    InkStep(v, code, m, Kinds(out.tokens));
  }

  method QuoteOrSymbol(v: Vocabulary, code: string, out: Out, m: Mode, open: seq<int>)
    returns (n: Mode, parens: seq<int>)
    requires m.index < |code| && Lexed(v, out.tokens, code, m.index) && Announced(m.heredocs)
    modifies out
    ensures n == InkMode(v, code, m) && Lexed(v, out.tokens, code, n.index) && Announced(n.heredocs)
    ensures Continues(old(out.tokens), out.tokens) && InkPainted(v, code, m, Kinds(out.tokens))
  {
    var c := code[m.index];
    parens := open;
    if c == '\'' || c == '"' || (c == '$' && Is(code, m.index + 1, '\'')) {
      n := Quote(v, code, out, m);
    } else {
      n, parens := Symbol(v, code, out, m, parens);
    }
  }

  /** A line continued, or the start of a substitution. */
  method PairOf(ghost v: Vocabulary, code: string, out: Out, index: nat)
    requires Lexed(v, out.tokens, code, index)
    requires (Is(code, index, '\\') && Is(code, index + 1, '\n')) || (Is(code, index, '$') && Is(code, index + 1, '('))
    modifies out
    ensures Lexed(v, out.tokens, code, index + 2) && Continues(old(out.tokens), out.tokens)
    ensures Painted(Kinds(out.tokens), index, index + 1, Some(Punctuation))
    ensures Painted(Kinds(out.tokens), index + 1, index + 2, if code[index] == '$' then Some(Punctuation) else None)
  {
    EmitChar(v, out, code[index], Some(Punctuation), code, index);
    ghost var mid := out.tokens;
    EmitChar(v, out, code[index + 1], if code[index] == '$' then Some(Punctuation) else None, code, index + 1);
    GivesLonger(v, mid, out.tokens, code, index + 1, index + 2);
    PaintedStays(Kinds(mid), Kinds(out.tokens), code, index, index + 1, Some(Punctuation));
  }

  /** A line end, and the bodies of the here-documents announced on the line. */
  method NextLine(ghost v: Vocabulary, code: string, out: Out, newline: nat, pending: seq<Heredoc>)
    returns (index: nat)
    requires Is(code, newline, '\n') && Lexed(v, out.tokens, code, newline) && Announced(pending)
    modifies out
    ensures index == AfterBodies(code, newline + 1, pending) && Lexed(v, out.tokens, code, index)
    ensures Continues(old(out.tokens), out.tokens) && LinePainted(code, newline, pending, Kinds(out.tokens))
  {
    EmitChar(v, out, '\n', None, code, newline);
    ghost var mid := out.tokens;
    index := Bodies(v, code, out, newline + 1, pending);
    GivesLonger(v, mid, out.tokens, code, newline + 1, index);
    PaintedStays(Kinds(mid), Kinds(out.tokens), code, newline, newline + 1, None);
  }

  method Quote(ghost v: Vocabulary, code: string, out: Out, m: Mode) returns (n: Mode)
    requires m.index < |code| && QuoteAt(code, m.index) && Lexed(v, out.tokens, code, m.index)
    modifies out
    ensures n == QuoteMode(code, m) && n.heredocs == m.heredocs && Lexed(v, out.tokens, code, n.index)
    ensures Continues(old(out.tokens), out.tokens) && QuotePainted(code, m, Kinds(out.tokens))
  {
    var index := m.index;
    if code[index] == '\'' {
      index := SingleQuoted(v, code, out, index);
    } else if code[index] == '$' {
      index := DollarQuoted(v, code, out, index);
      return m.(index := index);
    } else {
      index := DoubleQuoted(v, code, out, index);
    }
    return m.(index := index, commandStart := false);
  }

  method Symbol(v: Vocabulary, code: string, out: Out, m: Mode, open: seq<int>) returns (n: Mode, parens: seq<int>)
    requires m.index < |code| && Lexed(v, out.tokens, code, m.index) && Announced(m.heredocs)
    modifies out
    ensures n == SymbolMode(v, code, m) && Lexed(v, out.tokens, code, n.index) && Announced(n.heredocs)
    ensures Continues(old(out.tokens), out.tokens) && SymbolPainted(v, code, m, Kinds(out.tokens))
  {
    parens := open;
    if MarkAt(code, m.index) {
      n := Mark(v, code, out, m);
    } else {
      n, parens := OperatorOrWord(v, code, out, m, parens);
    }
  }

  /** A variable or the mark of a here-document. */
  method Mark(ghost v: Vocabulary, code: string, out: Out, m: Mode) returns (n: Mode)
    requires MarkAt(code, m.index) && Lexed(v, out.tokens, code, m.index) && Announced(m.heredocs)
    modifies out
    ensures n == MarkMode(code, m) && Lexed(v, out.tokens, code, n.index) && Announced(n.heredocs)
    ensures Continues(old(out.tokens), out.tokens) && MarkPainted(code, m, Kinds(out.tokens))
  {
    if VariableHere(code, m.index) {
      var end := Variable(v, code, out, m.index);
      return m.(index := end, commandStart := false);
    }
    var (end, heredoc) := HeredocHere(code, m.index).value;
    Emit(v, out, Slice(code, m.index, end), Some(Punctuation), code, m.index, end);
    n := m.(index := end, heredocs := m.heredocs + [heredoc]);
  }

  method OperatorOrWord(v: Vocabulary, code: string, out: Out, m: Mode, open: seq<int>)
    returns (n: Mode, parens: seq<int>)
    requires m.index < |code| && Lexed(v, out.tokens, code, m.index)
    modifies out
    ensures Lexed(v, out.tokens, code, n.index) && Continues(old(out.tokens), out.tokens)
    ensures n == PlainMode(v, code, m) && PlainPainted(v, code, m, Kinds(out.tokens))
  {
    parens := open;
    if OperatorAt(code, m.index, m.commandStart) > 0 {
      n, parens := NextOperator(v, code, out, m, open);
    } else {
      n := NextWord(v, code, out, m);
    }
  }

  method NextOperator(v: Vocabulary, code: string, out: Out, m: Mode, open: seq<int>)
    returns (n: Mode, parens: seq<int>)
    requires m.index < |code| && OperatorAt(code, m.index, m.commandStart) > 0 && Lexed(v, out.tokens, code, m.index)
    modifies out
    ensures Lexed(v, out.tokens, code, n.index) && Continues(old(out.tokens), out.tokens)
    ensures n == PlainMode(v, code, m) && PlainPainted(v, code, m, Kinds(out.tokens))
  {
    n, parens := Operator(v, code, out, m, OperatorAt(code, m.index, m.commandStart), open);
    OperatorStep(v, code, m, Kinds(out.tokens));
  }

  method NextWord(v: Vocabulary, code: string, out: Out, m: Mode) returns (n: Mode)
    requires m.index < |code| && OperatorAt(code, m.index, m.commandStart) == 0 && Lexed(v, out.tokens, code, m.index)
    modifies out
    ensures Lexed(v, out.tokens, code, n.index) && Continues(old(out.tokens), out.tokens)
    ensures n == PlainMode(v, code, m) && PlainPainted(v, code, m, Kinds(out.tokens))
  {
    var end, commandStart := Word(v, code, out, m.index, m.commandStart);
    WordStep(v, code, m, Kinds(out.tokens));
    n := m.(index := end, commandStart := commandStart);
  }

  method BlankEnd(code: string, from: nat) returns (end: nat)
    requires from < |code| && Blank(code[from])
    ensures end == SpanEnd(code, from, Blank)
  {
    end := from;
    while end < |code| && Blank(code[end])
      invariant from <= end <= |code| && SpanEnd(code, end, Blank) == SpanEnd(code, from, Blank)
    {
      end := end + 1;
    }
  }

  method LineComment(ghost v: Vocabulary, code: string, out: Out, from: nat) returns (end: nat)
    requires Is(code, from, '#') && Lexed(v, out.tokens, code, from)
    modifies out
    ensures end == LineStop(code, from) && Lexed(v, out.tokens, code, end)
    ensures Continues(old(out.tokens), out.tokens) && Painted(Kinds(out.tokens), from, end, Some(Comment))
  {
    var newline := Find(code, '\n', from);
    end := if newline.None? then |code| else newline.value;
    FindIsFirst(code, '\n', from);
    EmitSolid(v, out, Slice(code, from, end), Comment, code, from, end);
  }

  method SingleQuoted(ghost v: Vocabulary, code: string, out: Out, from: nat) returns (end: nat)
    requires Is(code, from, '\'') && Lexed(v, out.tokens, code, from)
    modifies out
    ensures end == PastQuote(code, from) && Lexed(v, out.tokens, code, end)
    ensures Continues(old(out.tokens), out.tokens) && Painted(Kinds(out.tokens), from, end, Some(String))
  {
    var close := Find(code, '\'', from + 1);
    end := if close.None? then |code| else close.value + 1;
    Emit(v, out, Slice(code, from, end), Some(String), code, from, end);
  }

  /** `$'…'`, where a backslash takes the next character with it, past the end of the text if need be. */
  method DollarQuoted(ghost v: Vocabulary, code: string, out: Out, from: nat) returns (index: nat)
    requires Is(code, from, '$') && Is(code, from + 1, '\'') && Lexed(v, out.tokens, code, from)
    modifies out
    ensures index == Min(EscapedStop(code, from + 2) + 1, |code|) && Lexed(v, out.tokens, code, index)
    ensures Continues(old(out.tokens), out.tokens) && Painted(Kinds(out.tokens), from, index, Some(String))
  {
    var end := from + 2;
    while end < |code| && code[end] != '\''
      invariant from + 2 <= end <= |code| + 1 && EscapedStop(code, end) == EscapedStop(code, from + 2)
    {
      end := end + if code[end] == '\\' then 2 else 1;
    }
    index := Min(end + 1, |code|);
    Emit(v, out, Slice(code, from, index), Some(String), code, from, index);
  }

  method Variable(ghost v: Vocabulary, code: string, out: Out, at: nat) returns (end: nat)
    requires Is(code, at, '$') && Lexed(v, out.tokens, code, at)
    modifies out
    ensures at <= end <= |code| && Lexed(v, out.tokens, code, end)
    ensures end == VariableEnd(code, at)
    ensures if end > at then !LastSolid(out.tokens) else out.tokens == old(out.tokens)
    ensures Continues(old(out.tokens), out.tokens) && Painted(Kinds(out.tokens), at, end, Some(Property))
  {
    end := VariableEnd(code, at);
    if end > at {
      Emit(v, out, Slice(code, at, end), Some(Property), code, at, end);
    }
  }

  method DoubleQuoted(ghost v: Vocabulary, code: string, out: Out, from: nat) returns (index: nat)
    requires Is(code, from, '"') && Lexed(v, out.tokens, code, from)
    modifies out
    ensures index == PastQuoted(code, from) && Lexed(v, out.tokens, code, index)
    ensures Continues(old(out.tokens), out.tokens) && DoublePainted(code, from, Kinds(out.tokens))
  {
    EmitChar(v, out, '"', Some(String), code, from);
    ghost var quoted := out.tokens;
    index := InsideQuotes(v, code, out, from + 1);
    GivesLonger(v, quoted, out.tokens, code, from + 1, index);
    PaintedStays(Kinds(quoted), Kinds(out.tokens), code, from, from + 1, Some(String));
    index := ClosingQuote(v, code, out, from, index);
  }

  /** The closing quote, if there is one. */
  method ClosingQuote(ghost v: Vocabulary, code: string, out: Out, ghost from: nat, stop: nat) returns (index: nat)
    requires from < |code| && stop == QuotedStop(code, from + 1) && Lexed(v, out.tokens, code, stop)
    requires Painted(Kinds(out.tokens), from, from + 1, Some(String))
      && QuotedPainted(code, from + 1, Kinds(out.tokens))
    modifies out
    ensures index == PastQuoted(code, from) && Lexed(v, out.tokens, code, index)
    ensures Continues(old(out.tokens), out.tokens) && DoublePainted(code, from, Kinds(out.tokens))
  {
    index := stop;
    if index < |code| {
      ghost var inside := out.tokens;
      EmitChar(v, out, '"', Some(String), code, index);
      index := index + 1;
      GivesLonger(v, inside, out.tokens, code, stop, index);
      QuoteCloses(code, from, stop, Kinds(inside), Kinds(out.tokens));
    }
  }

  lemma {:induction false} QuoteCloses(code: string, from: nat, stop: nat, a: Colours, b: Colours)
    requires from < |code| && stop == QuotedStop(code, from + 1) && stop < |code| && Longer(a, b, code, stop)
    requires Painted(a, from, from + 1, Some(String)) && QuotedPainted(code, from + 1, a)
    requires Painted(b, stop, stop + 1, Some(String))
    ensures DoublePainted(code, from, b)
  {
    PaintedStays(a, b, code, from, from + 1, Some(String));
    QuotedStays(a, b, code, from + 1);
  }

  /** The pieces inside the quotes that are done, and those still ahead. */
  ghost predicate QuotedUpTo(code: string, from: nat, done: seq<nat>, index: nat, kinds: Colours)
    requires from <= |code| + 1 && index <= |code| + 1
  {
    && done + QuotedPieces(code, index) == QuotedPieces(code, from) && QuotedStop(code, index) == QuotedStop(code, from)
    && forall p | p in done ::
         p < |code| && QuotedNext(code, p) <= index && Painted(kinds, p, QuotedNext(code, p), Some(QuotedKind(code, p)))
  }

  method InsideQuotes(ghost v: Vocabulary, code: string, out: Out, from: nat) returns (index: nat)
    requires from <= |code| && Lexed(v, out.tokens, code, from)
    modifies out
    ensures index == QuotedStop(code, from) && Lexed(v, out.tokens, code, index)
    ensures Continues(old(out.tokens), out.tokens) && QuotedPainted(code, from, Kinds(out.tokens))
  {
    index := from;
    ghost var done: seq<nat> := [];
    while index < |code| && code[index] != '"'
      invariant from <= index <= |code| + 1 && Lexed(v, out.tokens, code, index)
        && Continues(old(out.tokens), out.tokens)
      invariant QuotedUpTo(code, from, done, index, Kinds(out.tokens))
    {
      ghost var before, was := out.tokens, index;
      index := InDoubleQuotes(v, code, out, index);
      OneMoreQuoted(v, code, from, done, was, before, out.tokens);
      done := done + [was];
    }
  }

  lemma {:induction false} OneMoreQuoted(v: Vocabulary, code: string, from: nat, done: seq<nat>, at: nat,
                                         a: seq<Token>, b: seq<Token>)
    requires from <= |code| && at < |code| && code[at] != '"' && QuotedUpTo(code, from, done, at, Kinds(a))
    requires Coloured(v, a, code, at) && Coloured(v, b, code, QuotedNext(code, at)) && Continues(a, b)
    requires Painted(Kinds(b), at, QuotedNext(code, at), Some(QuotedKind(code, at)))
    ensures QuotedUpTo(code, from, done + [at], QuotedNext(code, at), Kinds(b))
  {
    var next := QuotedNext(code, at);
    assert done + [at] + QuotedPieces(code, next) == done + ([at] + QuotedPieces(code, next));
    ColouredLength(v, a, code, at);
    ColouredLength(v, b, code, next);
    forall p | p in done ensures Painted(Kinds(b), p, QuotedNext(code, p), Some(QuotedKind(code, p))) {
      PaintedStays(Kinds(a), Kinds(b), code, p, QuotedNext(code, p), Some(QuotedKind(code, p)));
    }
  }

  /** One piece inside double quotes: literal text, or a variable. */
  method InDoubleQuotes(ghost v: Vocabulary, code: string, out: Out, from: nat) returns (index: nat)
    requires from < |code| && Lexed(v, out.tokens, code, from)
    modifies out
    ensures index == QuotedNext(code, from) && Lexed(v, out.tokens, code, index)
      && Continues(old(out.tokens), out.tokens)
    ensures Painted(Kinds(out.tokens), from, index, Some(QuotedKind(code, from)))
  {
    if code[from] == '\\' {
      Emit(v, out, Slice(code, from, from + 2), Some(String), code, from, from + 2);
      return from + 2;
    }
    if code[from] == '$' && !Is(code, from + 1, '(') {
      index := Variable(v, code, out, from);
      if index > from {
        return;
      }
    }
    EmitChar(v, out, code[from], Some(String), code, from);
    index := from + 1;
  }

  ghost predicate DoneBodies(code: string, done: seq<(nat, Heredoc)>, end: nat, kinds: Colours) {
    forall b | b in done :: b.0 <= |code| && AfterBody(code, b.0, b.1) <= end && BodyPainted(code, b.0, b.1, kinds)
  }

  lemma DoneBodiesStay(code: string, done: seq<(nat, Heredoc)>, end: nat, a: Colours, b: Colours)
    requires DoneBodies(code, done, end, a) && Longer(a, b, code, end)
    ensures DoneBodies(code, done, end, b)
  {
    forall x | x in done ensures BodyPainted(code, x.0, x.1, b) {
      BodyStays(a, b, code, x.0, x.1);
    }
  }

  /** The bodies that are done, and those still ahead. */
  ghost predicate BodiesUpTo(code: string, from: nat, pending: seq<Heredoc>, done: seq<(nat, Heredoc)>, index: nat,
                             heredocs: seq<Heredoc>, kinds: Colours)
    requires from <= |code| && index <= |code|
  {
    && done + BodyStarts(code, index, heredocs) == BodyStarts(code, from, pending)
    && AfterBodies(code, index, heredocs) == AfterBodies(code, from, pending) && DoneBodies(code, done, index, kinds)
  }

  /** The bodies of the pending heredocs, each up to its delimiter line. */
  method Bodies(ghost v: Vocabulary, code: string, out: Out, from: nat, pending: seq<Heredoc>) returns (index: nat)
    requires from <= |code| && Lexed(v, out.tokens, code, from) && !LastSolid(out.tokens) && Announced(pending)
    modifies out
    ensures index == AfterBodies(code, from, pending) && Lexed(v, out.tokens, code, index)
    ensures Continues(old(out.tokens), out.tokens) && BodiesPainted(code, from, pending, Kinds(out.tokens))
  {
    index := from;
    var heredocs := pending;
    ghost var done: seq<(nat, Heredoc)> := [];
    while heredocs != []
      invariant from <= index <= |code| && Lexed(v, out.tokens, code, index) && Announced(heredocs)
      invariant (index < |code| ==> !LastSolid(out.tokens)) && Continues(old(out.tokens), out.tokens)
      invariant BodiesUpTo(code, from, pending, done, index, heredocs, Kinds(out.tokens))
      decreases |heredocs|
    {
      ghost var before, was := out.tokens, index;
      index := Body(v, code, out, index, heredocs[0]);
      GivesLonger(v, before, out.tokens, code, was, index);
      OneMoreBody(code, from, pending, done, was, heredocs, Kinds(before), Kinds(out.tokens));
      done := done + [(was, heredocs[0])];
      heredocs := heredocs[1..];
    }
  }

  lemma OneMoreBody(code: string, from: nat, pending: seq<Heredoc>, done: seq<(nat, Heredoc)>, at: nat,
                    heredocs: seq<Heredoc>, a: Colours, b: Colours)
    requires from <= |code| && at <= |code| && heredocs != [] && Longer(a, b, code, at)
    requires BodiesUpTo(code, from, pending, done, at, heredocs, a) && BodyPainted(code, at, heredocs[0], b)
    ensures BodiesUpTo(code, from, pending, done + [(at, heredocs[0])], AfterBody(code, at, heredocs[0]),
                       heredocs[1..], b)
  {
    var next := AfterBody(code, at, heredocs[0]);
    var rest := BodyStarts(code, next, heredocs[1..]);
    assert done + [(at, heredocs[0])] + rest == done + ([(at, heredocs[0])] + rest);
    DoneBodiesStay(code, done, at, a, b);
  }

  method Body(ghost v: Vocabulary, code: string, out: Out, from: nat, heredoc: Heredoc) returns (index: nat)
    requires from <= |code| && Lexed(v, out.tokens, code, from) && (from < |code| ==> !LastSolid(out.tokens))
    requires Identifier(heredoc.word)
    modifies out
    ensures index == AfterBody(code, from, heredoc) && Lexed(v, out.tokens, code, index)
    ensures index < |code| ==> !LastSolid(out.tokens)
    ensures Continues(old(out.tokens), out.tokens) && BodyPainted(code, from, heredoc, Kinds(out.tokens))
  {
    var found := FindDelimiter(code, from, heredoc);
    if found.None? {
      Emit(v, out, Slice(code, from, |code|), Some(String), code, from, |code|);
      return |code|;
    }
    var line := code[found.value..LineStop(code, found.value)];
    DelimiterFound(code, from, heredoc);
    TrimmedName(line, heredoc.word);
    index := Delimited(v, code, out, from, found.value, line);
    DelimitedBody(code, from, heredoc, Kinds(out.tokens));
  }

  lemma {:induction false} DelimitedBody(code: string, from: nat, h: Heredoc, kinds: Colours)
    requires from <= |code| && DelimiterLine(code, from, h).Some?
    ensures var line := DelimiterLine(code, from, h).value;
      var stop := LineStop(code, line);
      && AfterBody(code, from, h) == Min(stop + 1, |code|)
      && (BodyPainted(code, from, h, kinds) <==>
          Painted(kinds, from, line, Some(String)) && Painted(kinds, line, stop, Some(Keyword))
          && Painted(kinds, stop, stop + 1, None))
  {}

  lemma {:induction false} DelimiterFound(code: string, from: nat, h: Heredoc)
    requires from <= |code|
    ensures var line := DelimiterLine(code, from, h);
      line.Some? ==> IsDelimiter(code[line.value..LineStop(code, line.value)], h)
    decreases |code| - from
  {
    var stop := LineStop(code, from);
    if !IsDelimiter(code[from..stop], h) && stop < |code| { DelimiterFound(code, stop + 1, h); }
  }

  /** Line by line, to the first that is the delimiter. */
  method FindDelimiter(code: string, from: nat, heredoc: Heredoc) returns (found: Option<nat>)
    requires from <= |code|
    ensures found == DelimiterLine(code, from, heredoc)
  {
    var end := from;
    while true
      invariant from <= end <= |code| && DelimiterLine(code, end, heredoc) == DelimiterLine(code, from, heredoc)
      decreases |code| - end
    {
      var stop := LineStop(code, end);
      if IsDelimiter(code[end..stop], heredoc) {
        return Some(end);
      }
      if stop == |code| {
        return None;
      }
      end := stop + 1;
    }
  }

  method Delimited(ghost v: Vocabulary, code: string, out: Out, from: nat, end: nat, line: string) returns (index: nat)
    requires from <= end < |code| && Lexed(v, out.tokens, code, from) && !LastSolid(out.tokens)
    requires end + |line| <= |code| && (end + |line| < |code| ==> code[end + |line|] == '\n')
    requires line == Slice(code, end, end + |line|)
    requires line != "" && Fits(v, line, Some(Keyword))
    modifies out
    ensures index == Min(end + |line| + 1, |code|) && Lexed(v, out.tokens, code, index)
    ensures (index < |code| ==> !LastSolid(out.tokens)) && Continues(old(out.tokens), out.tokens)
    ensures Painted(Kinds(out.tokens), from, end, Some(String))
    ensures Painted(Kinds(out.tokens), end, end + |line|, Some(Keyword))
    ensures Painted(Kinds(out.tokens), end + |line|, end + |line| + 1, None)
  {
    Emit(v, out, Slice(code, from, end), Some(String), code, from, end);
    ghost var body := out.tokens;
    index := DelimiterText(v, code, out, end, line);
    GivesLonger(v, body, out.tokens, code, end, index);
    PaintedStays(Kinds(body), Kinds(out.tokens), code, from, end, Some(String));
  }

  /** The delimiter, and the line end behind it. */
  method DelimiterText(ghost v: Vocabulary, code: string, out: Out, end: nat, line: string) returns (index: nat)
    requires end < |code| && Lexed(v, out.tokens, code, end) && !LastSolid(out.tokens)
    requires end + |line| <= |code| && (end + |line| < |code| ==> code[end + |line|] == '\n')
    requires line == Slice(code, end, end + |line|) && line != "" && Fits(v, line, Some(Keyword))
    modifies out
    ensures index == Min(end + |line| + 1, |code|) && Lexed(v, out.tokens, code, index)
    ensures (index < |code| ==> !LastSolid(out.tokens)) && Continues(old(out.tokens), out.tokens)
    ensures Painted(Kinds(out.tokens), end, end + |line|, Some(Keyword))
    ensures Painted(Kinds(out.tokens), end + |line|, end + |line| + 1, None)
  {
    EmitSolid(v, out, line, Keyword, code, end, end + |line|);
    ghost var named := out.tokens;
    index := EndOfLine(v, code, out, end + |line|);
    GivesLonger(v, named, out.tokens, code, end + |line|, index);
    PaintedStays(Kinds(named), Kinds(out.tokens), code, end, end + |line|, Some(Keyword));
  }

  /** The line end, if there is one. */
  method EndOfLine(ghost v: Vocabulary, code: string, out: Out, stop: nat) returns (index: nat)
    requires stop <= |code| && Lexed(v, out.tokens, code, stop) && (stop < |code| ==> code[stop] == '\n')
    modifies out
    ensures index == Min(stop + 1, |code|) && Lexed(v, out.tokens, code, index)
    ensures (index < |code| ==> !LastSolid(out.tokens)) && Continues(old(out.tokens), out.tokens)
    ensures Painted(Kinds(out.tokens), stop, stop + 1, None)
  {
    index := stop;
    if index < |code| {
      EmitChar(v, out, '\n', None, code, index);
      index := index + 1;
    } else {
      ColouredLength(v, out.tokens, code, stop);
    }
  }

  lemma TrimmedName(line: string, word: string)
    requires Identifier(word) && (line == word || TrimStart(line) == word)
    ensures Identifier(TrimStart(line)) && line != ""
  {}

  method Operator(v: Vocabulary, code: string, out: Out, m: Mode, length: nat, open: seq<int>)
    returns (n: Mode, parens: seq<int>)
    requires length > 0 && m.index + length <= |code| && Opens(code[m.index]) && Lexed(v, out.tokens, code, m.index)
    modifies out
    ensures var end := m.index + length;
      && n == m.(index := end, commandStart := m.commandStart || Slice(code, m.index, end) in v.starters)
      && Lexed(v, out.tokens, code, end) && Painted(Kinds(out.tokens), m.index, end, Some(Punctuation))
    ensures Continues(old(out.tokens), out.tokens)
  {
    var end := m.index + length;
    var value := Slice(code, m.index, end);
    Emit(v, out, value, Some(Punctuation), code, m.index, end);
    parens := if value == ")" && open != [] then open[..|open| - 1] else open;
    n := m.(index := end, commandStart := m.commandStart || value in v.starters);
  }

  /** A word: up to whitespace, a quote, a variable or an operator. */
  method Word(v: Vocabulary, code: string, out: Out, from: nat, atStart: bool) returns (end: nat, commandStart: bool)
    requires from < |code| && Lexed(v, out.tokens, code, from)
    modifies out
    ensures (end, commandStart) == WordResult(v, code, from, atStart) && Lexed(v, out.tokens, code, end)
    ensures Continues(old(out.tokens), out.tokens) && WordPainted(v, code, from, atStart, Kinds(out.tokens))
  {
    end := WordEnd(code, from);
    commandStart := atStart;
    if end == from {
      EmitChar(v, out, code[from], None, code, from);
      end := end + 1;
    } else if commandStart {
      commandStart := CommandWord(v, code, out, from, end);
    } else {
      ArgumentWord(v, code, out, from, end);
    }
  }

  method WordEnd(code: string, from: nat) returns (end: nat)
    requires from < |code|
    ensures end == WordStop(code, from)
  {
    end := from;
    while end < |code| && !StopChar(code[end]) && !(code[end] == '\\' && Is(code, end + 1, '\n'))
      invariant from <= end <= |code| + 1 && WordStop(code, end) == WordStop(code, from)
    {
      if code[end] == '\\' { end := end + 1; }
      end := end + 1;
    }
  }

  ghost predicate AtWord(v: Vocabulary, tokens: seq<Token>, code: string, from: nat, end: nat) {
    && from < |code| && from < end && Lexed(v, tokens, code, from)
    && !Stops(code, from) && (end < |code| ==> Stops(code, end))
  }

  /** A word where a command may start: `NAME=value`, a keyword or a command's name. */
  method CommandWord(v: Vocabulary, code: string, out: Out, from: nat, end: nat) returns (commandStart: bool)
    requires AtWord(v, out.tokens, code, from, end)
    modifies out
    ensures commandStart == (IsAssignment(Slice(code, from, end)) || Slice(code, from, end) in v.resets)
    ensures Lexed(v, out.tokens, code, end)
    ensures Continues(old(out.tokens), out.tokens) && CommandPainted(v, code, from, end, Kinds(out.tokens))
  {
    var word := Slice(code, from, end);
    var name := NameEnd(word, 0);
    if name > 0 && Is(word, name, '=') {
      AssignmentWord(v, code, out, from, end, word, name);
      return true;
    }
    EmitSolid(v, out, word, if word in v.keywords then Keyword else Function, code, from, end);
    return word in v.resets;
  }

  method AssignmentWord(ghost v: Vocabulary, code: string, out: Out, from: nat, end: nat, word: string, name: nat)
    requires AtWord(v, out.tokens, code, from, end) && word == Slice(code, from, end)
    requires name > 0 && name == NameEnd(word, 0) && Is(word, name, '=')
    modifies out
    ensures Lexed(v, out.tokens, code, end)
    ensures Continues(old(out.tokens), out.tokens) && CommandPainted(v, code, from, end, Kinds(out.tokens))
  {
    CutSlice(code, from, end, name);
    var left := Slice(word, 0, name);
    assert left[0] == word[0];
    assert Slice(word, name + 1, |word|) == word[name + 1..];
    Assignment(v, code, out, from, end, left, word[name + 1..]);
  }

  predicate SplitAtEquals(code: string, from: nat, end: nat, name: string, value: string) {
    var mid := from + |name|;
    mid < end && Is(code, mid, '=') && name == Slice(code, from, mid) && value == Slice(code, mid + 1, end)
  }

  function ValueKind(value: string): Option<Kind> {
    if value != "" && SpanEnd(value, 0, Digit) == |value| then Some(Number) else None
  }

  method Assignment(ghost v: Vocabulary, code: string, out: Out, from: nat, end: nat, name: string, value: string)
    requires AtWord(v, out.tokens, code, from, end) && SplitAtEquals(code, from, end, name, value)
    requires name != "" && NameStart(name[0])
    modifies out
    ensures Lexed(v, out.tokens, code, end) && Continues(old(out.tokens), out.tokens)
    ensures Painted(Kinds(out.tokens), from, from + |name|, Some(Property))
    ensures Painted(Kinds(out.tokens), from + |name|, from + |name| + 1, Some(Punctuation))
    ensures Painted(Kinds(out.tokens), from + |name| + 1, end, ValueKind(value))
  {
    var mid := from + |name|;
    Emit(v, out, name, Some(Property), code, from, mid);
    ghost var named := out.tokens;
    EmitChar(v, out, '=', Some(Punctuation), code, mid);
    ghost var split := out.tokens;
    AssignedValue(v, code, out, mid + 1, end, value);
    GivesLonger(v, named, out.tokens, code, mid, end);
    GivesLonger(v, split, out.tokens, code, mid + 1, end);
    PaintedStays(Kinds(named), Kinds(out.tokens), code, from, mid, Some(Property));
    PaintedStays(Kinds(split), Kinds(out.tokens), code, mid, mid + 1, Some(Punctuation));
  }

  method AssignedValue(ghost v: Vocabulary, code: string, out: Out, from: nat, end: nat, value: string)
    requires Lexed(v, out.tokens, code, from) && !LastSolid(out.tokens)
    requires from <= end && (end < |code| ==> Stops(code, end)) && value == Slice(code, from, end)
    modifies out
    ensures Lexed(v, out.tokens, code, end)
    ensures Continues(old(out.tokens), out.tokens) && Painted(Kinds(out.tokens), from, end, ValueKind(value))
  {
    if value != "" && SpanEnd(value, 0, Digit) == |value| {
      EmitSolid(v, out, value, Number, code, from, end);
    } else {
      Emit(v, out, value, None, code, from, end);
    }
  }

  /** A word after the command: a flag, a number or plain text. */
  method ArgumentWord(ghost v: Vocabulary, code: string, out: Out, from: nat, end: nat)
    requires AtWord(v, out.tokens, code, from, end)
    modifies out
    ensures Lexed(v, out.tokens, code, end)
    ensures Continues(old(out.tokens), out.tokens) && ArgumentPainted(code, from, end, Kinds(out.tokens))
  {
    var word := Slice(code, from, end);
    if FlagEnd(word) > 0 && (FlagEnd(word) == |word| || word[FlagEnd(word)] == '=') {
      FlagFits(v, word);
      FlagWord(v, code, out, from, end, word, FlagEnd(word));
    } else if IsNumber(word) {
      EmitSolid(v, out, word, Number, code, from, end);
    } else {
      Emit(v, out, word, None, code, from, end);
    }
  }

  method FlagWord(ghost v: Vocabulary, code: string, out: Out, from: nat, end: nat, word: string, ghost name: nat)
    requires AtWord(v, out.tokens, code, from, end) && word == Slice(code, from, end) && 0 < name <= |word|
    requires Find(word, '=', 0) == (if name < |word| then Some(name) else None)
    requires Fits(v, Slice(word, 0, name), Some(Type)) && Slice(word, 0, |word|) == word
    modifies out
    ensures Lexed(v, out.tokens, code, end) && Continues(old(out.tokens), out.tokens)
    ensures FlagPainted(from, end, name, |word|, Kinds(out.tokens))
  {
    var equals := Find(word, '=', 0);
    if equals.Some? && equals.value > 0 {
      ValuedFlag(v, code, out, from, end, word, equals.value);
    } else {
      WholeFlag(v, code, out, from, end, word);
    }
  }

  method ValuedFlag(ghost v: Vocabulary, code: string, out: Out, from: nat, end: nat, word: string, name: nat)
    requires AtWord(v, out.tokens, code, from, end) && word == Slice(code, from, end) && name > 0
    requires Is(word, name, '=') && Fits(v, Slice(word, 0, name), Some(Type))
    modifies out
    ensures Lexed(v, out.tokens, code, end) && Continues(old(out.tokens), out.tokens)
    ensures FlagPainted(from, end, name, |word|, Kinds(out.tokens))
  {
    CutSlice(code, from, end, name);
    FlagWithValue(v, code, out, from, end, Slice(word, 0, name), Slice(word, name + 1, |word|));
  }

  lemma FlagFits(v: Vocabulary, word: string)
    requires IsFlag(word)
    ensures var name := FlagEnd(word);
      && 0 < name <= |word| && Find(word, '=', 0) == (if name < |word| then Some(name) else None)
      && Fits(v, Slice(word, 0, name), Some(Type)) && Slice(word, 0, |word|) == word
  {
    FlagName(word);
    assert Slice(word, 0, FlagEnd(word)) == word[..FlagEnd(word)];
  }

  method WholeFlag(ghost v: Vocabulary, code: string, out: Out, from: nat, end: nat, word: string)
    requires AtWord(v, out.tokens, code, from, end) && word == Slice(code, from, end) && Fits(v, word, Some(Type))
    modifies out
    ensures Lexed(v, out.tokens, code, end) && Continues(old(out.tokens), out.tokens)
    ensures FlagPainted(from, end, |word|, |word|, Kinds(out.tokens))
  {
    EmitSolid(v, out, word, Type, code, from, end);
    ColouredLength(v, out.tokens, code, end);
  }

  method FlagWithValue(ghost v: Vocabulary, code: string, out: Out, from: nat, end: nat, name: string, value: string)
    requires AtWord(v, out.tokens, code, from, end) && SplitAtEquals(code, from, end, name, value)
    requires name != "" && Fits(v, name, Some(Type))
    modifies out
    ensures Lexed(v, out.tokens, code, end) && Continues(old(out.tokens), out.tokens)
    ensures Painted(Kinds(out.tokens), from, from + |name|, Some(Type))
    ensures Painted(Kinds(out.tokens), from + |name|, from + |name| + 1, Some(Punctuation))
    ensures Painted(Kinds(out.tokens), from + |name| + 1, end, None)
  {
    var mid := from + |name|;
    EmitSolid(v, out, name, Type, code, from, mid);
    ghost var named := out.tokens;
    EmitChar(v, out, '=', Some(Punctuation), code, mid);
    ghost var split := out.tokens;
    Emit(v, out, value, None, code, mid + 1, end);
    GivesLonger(v, named, out.tokens, code, mid, end);
    GivesLonger(v, split, out.tokens, code, mid + 1, end);
    PaintedStays(Kinds(named), Kinds(out.tokens), code, from, mid, Some(Type));
    PaintedStays(Kinds(split), Kinds(out.tokens), code, mid, mid + 1, Some(Punctuation));
  }
}
