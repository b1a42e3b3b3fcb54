// What the shell lexer colours how: where each piece of the source ends, which state the next one starts in, and the
// kind of each of its characters (frontend/lib/highlight.ts:52-248).
module ShellGrammar {
  import opened Wrappers
  import opened Tokens

  /** Keywords, and the words and operators after which the next word is a command again. */
  datatype Vocabulary = Vocabulary(keywords: set<string>, resets: set<string>, starters: set<string>)

  const SHELL: Vocabulary := Vocabulary(
    {"if", "then", "else", "elif", "fi", "for", "while", "until", "do", "done", "case", "esac", "in", "function",
     "select", "time", "return", "exit", "export", "local", "readonly", "declare", "set", "unset", "source", "trap",
     "shift", "break", "continue", "eval", "exec"},
    {"if", "then", "do", "else", "elif", "while", "until", "time", "!", "sudo", "env", "exec", "nohup", "xargs",
     "command", "builtin", "export", "local", "readonly", "declare"},
    {"&&", "||", "|", ";", "&", "(", ";;", "{"})

  datatype Heredoc = Heredoc(word: string, strip: bool)

  // ---- patterns ----

  predicate StopChar(c: char) {
    Space(c) || c in {'\'', '"', '$', '|', ';', '&', '<', '>', '(', ')', '`'}
  }

  predicate Blank(c: char) { c == ' ' || c == '\t' }

  predicate FlagPart(c: char) { NamePart(c) || c == '-' }

  /** Where a word ends: a stop character, or a backslash that continues the line. */
  predicate Stops(code: string, i: nat)
    requires i < |code|
  {
    StopChar(code[i]) || (code[i] == '\\' && Is(code, i + 1, '\n'))
  }

  /** The end of the variable at `at`, or `at` itself when `$` starts none. */
  function VariableEnd(code: string, at: nat): (end: nat)
    requires Is(code, at, '$')
    ensures at <= end <= |code|
  {
    if Is(code, at + 1, '{') then
      var close := Find(code, '}', at + 2);
      if close.None? then |code| else close.value + 1
    else
      var window := Slice(code, at, at + 64);
      var name := NameEnd(window, 1);
      if name > 1 then at + name
      else if 1 < |window| && (Digit(window[1]) || window[1] in {'?', '@', '#', '$', '!', '*', '-'}) then at + 2
      else at
  }

  /** `<<`, an optional dash, blanks and a name, quoted or not. */
  function HeredocAt(code: string, at: nat): (found: Option<(nat, Heredoc)>)
    requires Pair(code, at, '<', '<')
    ensures found.Some? ==> at < found.value.0 <= |code| && Identifier(found.value.1.word)
  {
    var strip := Is(code, at + 2, '-');
    var blank := SpanEnd(code, if strip then at + 3 else at + 2, Blank);
    var quoted := Is(code, blank, '\'') || Is(code, blank, '"');
    var start := if quoted then blank + 1 else blank;
    var end := NameEnd(code, start);
    NameIsIdentifier(code, start);
    if end == start || (quoted && !Is(code, end, code[blank])) then None
    else Some((if quoted then end + 1 else end, Heredoc(code[start..end], strip)))
  }

  /** How punctuation starts: an operator, a continued line, a substitution, an assignment, or a redirected number. */
  predicate Opens(c: char) {
    Digit(c) || c in {'\\', '$', '=', '&', '|', ';', '<', '>', '(', ')', '{', '}'}
  }

  /** The length of the operator a four-character window starts with, or 0. */
  function OperatorLength(w: string): (n: nat)
    ensures n <= |w| && (n > 0 ==> Opens(w[0]))
  {
    var digits := SpanEnd(w, 0, Digit);
    if Pair(w, 0, '&', '&') || Pair(w, 0, '|', '|') || Pair(w, 0, ';', ';') then 2
    else if w != "" && w[0] in {'|', ';', '&'} then 1
    else if Is(w, digits, '>') then
      var arrow := if Is(w, digits + 1, '>') then digits + 2 else digits + 1;
      if Is(w, arrow, '&') && arrow + 1 < |w| && Digit(w[arrow + 1]) then arrow + 2 else arrow
    else if w != "" && w[0] in {'<', '(', ')', '{', '}'} then 1
    else 0
  }

  /** `-?\d+(\.\d+)?` in full. */
  predicate IsNumber(s: string) {
    var sign := if Is(s, 0, '-') then 1 else 0;
    var whole := SpanEnd(s, sign, Digit);
    whole > sign &&
    (whole == |s| || (s[whole] == '.' && whole + 1 < |s| && SpanEnd(s, whole + 1, Digit) == |s|))
  }

  /** The end of the `--?[A-Za-z0-9][\w-]*` a word starts with, or 0. */
  function FlagEnd(word: string): (end: nat)
    ensures end <= |word|
  {
    var dashes := if Pair(word, 0, '-', '-') then 2 else if Is(word, 0, '-') then 1 else 0;
    if dashes > 0 && dashes < |word| && NamePart(word[dashes]) && word[dashes] != '_'
    then SpanEnd(word, dashes, FlagPart) else 0
  }

  // ---- where pieces end ----

  /** The end of the line. */
  function LineStop(code: string, at: nat): (end: nat)
    requires at <= |code|
    ensures at <= end <= |code| && (end < |code| ==> code[end] == '\n')
  {
    var newline := Find(code, '\n', at);
    if newline.None? then |code| else newline.value
  }

  function PastQuote(code: string, at: nat): (end: nat)
    requires at < |code|
    ensures at < end <= |code|
  {
    var close := Find(code, '\'', at + 1);
    if close.None? then |code| else close.value + 1
  }

  /** The closing quote of `$'…'`, where a backslash takes the next character with it. */
  function EscapedStop(code: string, at: nat): (end: nat)
    requires at <= |code| + 1
    ensures at <= end <= |code| + 1
    decreases |code| + 1 - at
  {
    if at >= |code| || code[at] == '\'' then at else EscapedStop(code, at + if code[at] == '\\' then 2 else 1)
  }

  predicate VariableInQuotes(code: string, at: nat)
    requires at < |code|
  {
    code[at] == '$' && !Is(code, at + 1, '(') && VariableEnd(code, at) > at
  }

  /** The next piece inside double quotes: an escaped character, a variable or one character. */
  function QuotedNext(code: string, at: nat): (next: nat)
    requires at < |code|
    ensures at < next <= |code| + 1
  {
    if code[at] == '\\' then at + 2 else if VariableInQuotes(code, at) then VariableEnd(code, at) else at + 1
  }

  function QuotedStop(code: string, at: nat): (end: nat)
    requires at <= |code| + 1
    ensures at <= end <= |code| + 1 && (end < |code| ==> code[end] == '"')
    decreases |code| + 1 - at
  {
    if at >= |code| || code[at] == '"' then at else QuotedStop(code, QuotedNext(code, at))
  }

  /** The pieces inside double quotes, by where they start. */
  function QuotedPieces(code: string, at: nat): (ps: seq<nat>)
    requires at <= |code| + 1
    ensures forall p | p in ps :: at <= p < |code| && QuotedNext(code, p) <= QuotedStop(code, at)
    decreases |code| + 1 - at
  {
    if at >= |code| || code[at] == '"' then [] else [at] + QuotedPieces(code, QuotedNext(code, at))
  }

  function PastQuoted(code: string, at: nat): (end: nat)
    requires at < |code|
    ensures at < end <= |code| + 1
  {
    var stop := QuotedStop(code, at + 1);
    if stop < |code| then stop + 1 else stop
  }

  function WordStop(code: string, at: nat): (end: nat)
    requires at <= |code| + 1
    ensures at <= end <= |code| + 1 && (end < |code| ==> Stops(code, end))
    ensures at < |code| ==> (end > at <==> !Stops(code, at))
    decreases |code| + 1 - at
  {
    if at >= |code| || Stops(code, at) then at else WordStop(code, at + if code[at] == '\\' then 2 else 1)
  }

  predicate IsDelimiter(line: string, h: Heredoc) { (if h.strip then TrimStart(line) else line) == h.word }

  /** The start of the first line that is the delimiter. */
  function DelimiterLine(code: string, at: nat, h: Heredoc): (line: Option<nat>)
    requires at <= |code|
    ensures line.Some? ==> at <= line.value <= |code|
    decreases |code| - at
  {
    var stop := LineStop(code, at);
    if IsDelimiter(code[at..stop], h) then Some(at)
    else if stop == |code| then None
    else DelimiterLine(code, stop + 1, h)
  }

  function AfterBody(code: string, from: nat, h: Heredoc): (end: nat)
    requires from <= |code|
    ensures from <= end <= |code|
  {
    var line := DelimiterLine(code, from, h);
    if line.None? then |code| else Min(LineStop(code, line.value) + 1, |code|)
  }

  function AfterBodies(code: string, from: nat, pending: seq<Heredoc>): (end: nat)
    requires from <= |code|
    ensures from <= end <= |code|
    decreases |pending|
  {
    if pending == [] then from else AfterBodies(code, AfterBody(code, from, pending[0]), pending[1..])
  }

  /** The bodies of the pending here-documents, by where they start. */
  function BodyStarts(code: string, from: nat, pending: seq<Heredoc>): (bs: seq<(nat, Heredoc)>)
    requires from <= |code|
    ensures forall b | b in bs :: from <= b.0 <= |code| && AfterBody(code, b.0, b.1) <= AfterBodies(code, from, pending)
    decreases |pending|
  {
    if pending == [] then []
    else [(from, pending[0])] + BodyStarts(code, AfterBody(code, from, pending[0]), pending[1..])
  }

  predicate CommentAt(code: string, i: nat) { Is(code, i, '#') && (i == 0 || Space(code[i - 1])) }

  function HeredocHere(code: string, i: nat): Option<(nat, Heredoc)> {
    if Pair(code, i, '<', '<') && !Is(code, i + 2, '<') then HeredocAt(code, i) else None
  }

  /** A brace is an operator only where a command could start or when it stands alone. */
  predicate BraceInWord(code: string, i: nat, commandStart: bool)
    requires i < |code|
  {
    code[i] in {'{', '}'} && !commandStart && i + 1 < |code| && !Space(code[i + 1]) && code[i + 1] != ';'
  }

  /** The length of the operator at `i`. */
  function OperatorAt(code: string, i: nat, commandStart: bool): (n: nat)
    requires i < |code|
    ensures i + n <= |code| && (n > 0 ==> Opens(code[i]))
  {
    if BraceInWord(code, i, commandStart) then 0 else OperatorLength(Slice(code, i, i + 4))
  }

  /** `NAME=` */
  predicate IsAssignment(word: string) { NameEnd(word, 0) > 0 && Is(word, NameEnd(word, 0), '=') }

  predicate IsFlag(word: string) { FlagEnd(word) > 0 && (FlagEnd(word) == |word| || word[FlagEnd(word)] == '=') }

  // ---- from piece to piece ----

  /** Where the lexer stands, whether a command can start there, and the here-documents announced on this line. */
  datatype Mode = Mode(index: nat, commandStart: bool, heredocs: seq<Heredoc>)

  const START := Mode(0, true, [])

  /** A quoted string starts here. */
  predicate QuoteAt(code: string, i: nat) {
    Is(code, i, '\'') || Is(code, i, '"') || (Is(code, i, '$') && Is(code, i + 1, '\''))
  }

  /** Blanks, a continued line, a comment or a substitution. */
  predicate GapAt(code: string, i: nat)
    requires i < |code|
  {
    || Blank(code[i]) || (code[i] == '\\' && Is(code, i + 1, '\n')) || CommentAt(code, i)
    || (code[i] == '$' && Is(code, i + 1, '('))
  }

  function NextMode(v: Vocabulary, code: string, m: Mode): (n: Mode)
    requires m.index < |code|
    ensures m.index < n.index <= |code| + 1
  {
    if code[m.index] == '\n' then Mode(AfterBodies(code, m.index + 1, m.heredocs), true, [])
    else if GapAt(code, m.index) then GapMode(code, m)
    else InkMode(v, code, m)
  }

  /** Past a string, a variable, a mark, an operator or a word. */
  function InkMode(v: Vocabulary, code: string, m: Mode): (n: Mode)
    requires m.index < |code|
    ensures m.index < n.index <= |code| + 1
  {
    if QuoteAt(code, m.index) then QuoteMode(code, m) else SymbolMode(v, code, m)
  }

  function GapMode(code: string, m: Mode): (n: Mode)
    requires m.index < |code| && GapAt(code, m.index)
    ensures m.index < n.index <= |code|
  {
    var (i, c) := (m.index, code[m.index]);
    if Blank(c) then m.(index := SpanEnd(code, i, Blank))
    else if c == '\\' then m.(index := i + 2)
    else if c == '#' then m.(index := LineStop(code, i))
    else m.(index := i + 2, commandStart := true)
  }

  /** A single- or double-quoted string ends a command's name, one with `$` in front does not. */
  function QuoteMode(code: string, m: Mode): (n: Mode)
    requires m.index < |code| && QuoteAt(code, m.index)
    ensures m.index < n.index <= |code| + 1
  {
    var i := m.index;
    if code[i] == '$' then m.(index := Min(EscapedStop(code, i + 2) + 1, |code|))
    else m.(index := if code[i] == '"' then PastQuoted(code, i) else PastQuote(code, i), commandStart := false)
  }

  function SymbolMode(v: Vocabulary, code: string, m: Mode): (n: Mode)
    requires m.index < |code|
    ensures m.index < n.index <= |code| + 1
  {
    if MarkAt(code, m.index) then MarkMode(code, m) else PlainMode(v, code, m)
  }

  predicate VariableHere(code: string, i: nat) { Is(code, i, '$') && VariableEnd(code, i) > i }

  /** A variable, or the mark of a here-document. */
  predicate MarkAt(code: string, i: nat) { VariableHere(code, i) || HeredocHere(code, i).Some? }

  function MarkMode(code: string, m: Mode): (n: Mode)
    requires MarkAt(code, m.index)
    ensures m.index < n.index <= |code|
  {
    if VariableHere(code, m.index) then m.(index := VariableEnd(code, m.index), commandStart := false)
    else var (end, heredoc) := HeredocHere(code, m.index).value; m.(index := end, heredocs := m.heredocs + [heredoc])
  }

  /** Past an operator or a word. */
  function PlainMode(v: Vocabulary, code: string, m: Mode): (n: Mode)
    requires m.index < |code|
    ensures m.index < n.index <= |code| + 1
  {
    var i, length := m.index, OperatorAt(code, m.index, m.commandStart);
    if length > 0 then
      m.(index := i + length, commandStart := m.commandStart || Slice(code, i, i + length) in v.starters)
    else
      var (end, commandStart) := WordResult(v, code, i, m.commandStart);
      m.(index := end, commandStart := commandStart)
  }

  /** The end of a word, or of a single character that starts none, and whether a command can start behind it. */
  function WordResult(v: Vocabulary, code: string, from: nat, atStart: bool): (result: (nat, bool))
    requires from < |code|
    ensures from < result.0 <= |code| + 1
  {
    var end := WordStop(code, from);
    if end == from then (from + 1, atStart) else
      var word := Slice(code, from, end);
      (end, atStart && (IsAssignment(word) || word in v.resets))
  }

  /** Every place where the lexer stands before the end of the text. */
  function Modes(v: Vocabulary, code: string, m: Mode): (ms: seq<Mode>)
    ensures forall x | x in ms :: m.index <= x.index < |code|
    decreases |code| + 1 - m.index
  {
    if m.index >= |code| then [] else [m] + Modes(v, code, NextMode(v, code, m))
  }

  // ---- the kinds of its characters ----

  type Colours = seq<Option<Kind>>

  /** These characters, as far as there are any, have this kind. */
  predicate Painted(kinds: Colours, from: nat, to: nat, kind: Option<Kind>) {
    forall i | from <= i < to && i < |kinds| :: kinds[i] == kind
  }

  function QuotedKind(code: string, at: nat): Kind
    requires at < |code|
  {
    if code[at] != '\\' && VariableInQuotes(code, at) then Property else String
  }

  /** Strings, but for the variables in them. */
  predicate QuotedPainted(code: string, at: nat, kinds: Colours)
    requires at <= |code| + 1
  {
    forall p | p in QuotedPieces(code, at) :: Painted(kinds, p, QuotedNext(code, p), Some(QuotedKind(code, p)))
  }

  /** A string, and the delimiter a keyword. */
  predicate BodyPainted(code: string, from: nat, h: Heredoc, kinds: Colours)
    requires from <= |code|
  {
    var line := DelimiterLine(code, from, h);
    if line.None? then Painted(kinds, from, |code|, Some(String)) else
      var stop := LineStop(code, line.value);
      && Painted(kinds, from, line.value, Some(String)) && Painted(kinds, line.value, stop, Some(Keyword))
      && Painted(kinds, stop, stop + 1, None)
  }

  predicate BodiesPainted(code: string, from: nat, pending: seq<Heredoc>, kinds: Colours)
    requires from <= |code|
  {
    forall b | b in BodyStarts(code, from, pending) :: BodyPainted(code, b.0, b.1, kinds)
  }

  /** What the lexer has done with the piece where it stood. */
  predicate StepPainted(v: Vocabulary, code: string, m: Mode, kinds: Colours)
    requires m.index < |code|
  {
    if code[m.index] == '\n' then LinePainted(code, m.index, m.heredocs, kinds)
    else if GapAt(code, m.index) then GapPainted(code, m, kinds)
    else InkPainted(v, code, m, kinds)
  }

  predicate InkPainted(v: Vocabulary, code: string, m: Mode, kinds: Colours)
    requires m.index < |code|
  {
    if QuoteAt(code, m.index) then QuotePainted(code, m, kinds) else SymbolPainted(v, code, m, kinds)
  }

  predicate GapPainted(code: string, m: Mode, kinds: Colours)
    requires m.index < |code| && GapAt(code, m.index)
  {
    var (i, c, end) := (m.index, code[m.index], GapMode(code, m).index);
    if Blank(c) then Painted(kinds, i, end, None)
    else if c == '\\' then Painted(kinds, i, i + 1, Some(Punctuation)) && Painted(kinds, i + 1, end, None)
    else Painted(kinds, i, end, Some(if c == '#' then Comment else Punctuation))
  }

  /** A line end, and the bodies of the here-documents announced on the line. */
  predicate LinePainted(code: string, i: nat, pending: seq<Heredoc>, kinds: Colours)
    requires i < |code|
  {
    Painted(kinds, i, i + 1, None) && BodiesPainted(code, i + 1, pending, kinds)
  }

  predicate QuotePainted(code: string, m: Mode, kinds: Colours)
    requires m.index < |code| && QuoteAt(code, m.index)
  {
    if code[m.index] == '"' then DoublePainted(code, m.index, kinds)
    else Painted(kinds, m.index, QuoteMode(code, m).index, Some(String))
  }

  predicate DoublePainted(code: string, i: nat, kinds: Colours)
    requires i < |code|
  {
    && Painted(kinds, i, i + 1, Some(String)) && QuotedPainted(code, i + 1, kinds)
    && Painted(kinds, QuotedStop(code, i + 1), PastQuoted(code, i), Some(String))
  }

  predicate SymbolPainted(v: Vocabulary, code: string, m: Mode, kinds: Colours)
    requires m.index < |code|
  {
    if MarkAt(code, m.index) then MarkPainted(code, m, kinds) else PlainPainted(v, code, m, kinds)
  }

  predicate MarkPainted(code: string, m: Mode, kinds: Colours)
    requires MarkAt(code, m.index)
  {
    Painted(kinds, m.index, MarkMode(code, m).index,
            Some(if VariableHere(code, m.index) then Property else Punctuation))
  }

  predicate PlainPainted(v: Vocabulary, code: string, m: Mode, kinds: Colours)
    requires m.index < |code|
  {
    var length := OperatorAt(code, m.index, m.commandStart);
    if length > 0 then Painted(kinds, m.index, m.index + length, Some(Punctuation))
    else WordPainted(v, code, m.index, m.commandStart, kinds)
  }

  predicate WordPainted(v: Vocabulary, code: string, from: nat, atStart: bool, kinds: Colours)
    requires from < |code|
  {
    var end := WordStop(code, from);
    if end == from then Painted(kinds, from, from + 1, None)
    else if atStart then CommandPainted(v, code, from, end, kinds)
    else ArgumentPainted(code, from, end, kinds)
  }

  /** `NAME=value`, a keyword or a command's name. */
  predicate CommandPainted(v: Vocabulary, code: string, from: nat, end: nat, kinds: Colours) {
    var word := Slice(code, from, end);
    if IsAssignment(word) then
      var equals := NameEnd(word, 0);
      var value := word[equals + 1..];
      && Painted(kinds, from, from + equals, Some(Property))
      && Painted(kinds, from + equals, from + equals + 1, Some(Punctuation))
      && Painted(kinds, from + equals + 1, end, if value != "" && SpanEnd(value, 0, Digit) == |value| then Some(Number)
                 else None)
    else Painted(kinds, from, end, Some(if word in v.keywords then Keyword else Function))
  }

  /** A flag with or without a value, a number or plain text. */
  predicate ArgumentPainted(code: string, from: nat, end: nat, kinds: Colours) {
    var word := Slice(code, from, end);
    if IsFlag(word) then FlagPainted(from, end, FlagEnd(word), |word|, kinds)
    else Painted(kinds, from, end, if IsNumber(word) then Some(Number) else None)
  }

  /** The flag's name, and its value if the word goes on. */
  predicate FlagPainted(from: nat, end: nat, equals: nat, length: nat, kinds: Colours) {
    && Painted(kinds, from, from + equals, Some(Type))
    && (equals < length ==> Painted(kinds, from + equals, from + equals + 1, Some(Punctuation))
                            && Painted(kinds, from + equals + 1, end, None))
  }

  // ---- kinds once given stay ----

  /** A longer colouring of the same text, at least up to `to` the same. */
  predicate Longer(a: Colours, b: Colours, code: string, to: nat) { a <= b && |b| <= |code| && Min(to, |code|) <= |a| }

  lemma PaintedStays(a: Colours, b: Colours, code: string, from: nat, to: nat, kind: Option<Kind>)
    requires Longer(a, b, code, to) && Painted(a, from, to, kind)
    ensures Painted(b, from, to, kind)
  {}

  lemma {:induction false} QuotedStays(a: Colours, b: Colours, code: string, at: nat)
    requires at <= |code| + 1 && Longer(a, b, code, QuotedStop(code, at)) && QuotedPainted(code, at, a)
    ensures QuotedPainted(code, at, b)
  {
    forall p | p in QuotedPieces(code, at) ensures Painted(b, p, QuotedNext(code, p), Some(QuotedKind(code, p))) {
      PaintedStays(a, b, code, p, QuotedNext(code, p), Some(QuotedKind(code, p)));
    }
  }

  lemma {:induction false} BodyStays(a: Colours, b: Colours, code: string, from: nat, h: Heredoc)
    requires from <= |code| && Longer(a, b, code, AfterBody(code, from, h)) && BodyPainted(code, from, h, a)
    ensures BodyPainted(code, from, h, b)
  {}

  lemma {:induction false} BodiesStay(a: Colours, b: Colours, code: string, from: nat, pending: seq<Heredoc>)
    requires from <= |code| && Longer(a, b, code, AfterBodies(code, from, pending))
      && BodiesPainted(code, from, pending, a)
    ensures BodiesPainted(code, from, pending, b)
  {
    forall s | s in BodyStarts(code, from, pending) ensures BodyPainted(code, s.0, s.1, b) {
      BodyStays(a, b, code, s.0, s.1);
    }
  }

  lemma {:induction false} WordStays(v: Vocabulary, code: string, from: nat, atStart: bool, a: Colours, b: Colours)
    requires from < |code| && Longer(a, b, code, WordResult(v, code, from, atStart).0)
      && WordPainted(v, code, from, atStart, a)
    ensures WordPainted(v, code, from, atStart, b)
  {}

  lemma {:induction false} PlainStays(v: Vocabulary, code: string, m: Mode, a: Colours, b: Colours)
    requires m.index < |code| && Longer(a, b, code, PlainMode(v, code, m).index) && PlainPainted(v, code, m, a)
    ensures PlainPainted(v, code, m, b)
  {
    if OperatorAt(code, m.index, m.commandStart) == 0 { WordStays(v, code, m.index, m.commandStart, a, b); }
  }

  lemma {:induction false} SymbolStays(v: Vocabulary, code: string, m: Mode, a: Colours, b: Colours)
    requires m.index < |code| && Longer(a, b, code, SymbolMode(v, code, m).index) && SymbolPainted(v, code, m, a)
    ensures SymbolPainted(v, code, m, b)
  {
    if !MarkAt(code, m.index) { PlainStays(v, code, m, a, b); }
  }

  lemma {:induction false} LineStays(code: string, i: nat, pending: seq<Heredoc>, a: Colours, b: Colours)
    requires i < |code| && Longer(a, b, code, AfterBodies(code, i + 1, pending)) && LinePainted(code, i, pending, a)
    ensures LinePainted(code, i, pending, b)
  {
    BodiesStay(a, b, code, i + 1, pending);
  }

  lemma {:induction false} GapStays(code: string, m: Mode, a: Colours, b: Colours)
    requires m.index < |code| && GapAt(code, m.index)
    requires Longer(a, b, code, GapMode(code, m).index) && GapPainted(code, m, a)
    ensures GapPainted(code, m, b)
  {}

  lemma {:induction false} QuoteStays(code: string, m: Mode, a: Colours, b: Colours)
    requires m.index < |code| && QuoteAt(code, m.index) && Longer(a, b, code, QuoteMode(code, m).index)
    requires QuotePainted(code, m, a)
    ensures QuotePainted(code, m, b)
  {
    if code[m.index] == '"' { DoubleStays(code, m.index, a, b); }
  }

  lemma {:induction false} DoubleStays(code: string, i: nat, a: Colours, b: Colours)
    requires i < |code| && Longer(a, b, code, PastQuoted(code, i)) && DoublePainted(code, i, a)
    ensures DoublePainted(code, i, b)
  {
    QuotedStays(a, b, code, i + 1);
  }

  lemma {:induction false} InkStays(v: Vocabulary, code: string, m: Mode, a: Colours, b: Colours)
    requires m.index < |code| && Longer(a, b, code, InkMode(v, code, m).index) && InkPainted(v, code, m, a)
    ensures InkPainted(v, code, m, b)
  {
    if QuoteAt(code, m.index) {
      QuoteStays(code, m, a, b);
    } else {
      SymbolStays(v, code, m, a, b);
    }
  }

  // ---- one step, by what it meets ----

  lemma {:induction false} LineStep(v: Vocabulary, code: string, m: Mode, kinds: Colours)
    requires m.index < |code| && code[m.index] == '\n'
    ensures NextMode(v, code, m) == Mode(AfterBodies(code, m.index + 1, m.heredocs), true, [])
    ensures StepPainted(v, code, m, kinds) <==> LinePainted(code, m.index, m.heredocs, kinds)
  {}

  lemma {:induction false} GapStep(v: Vocabulary, code: string, m: Mode, kinds: Colours)
    requires m.index < |code| && GapAt(code, m.index)
    ensures NextMode(v, code, m) == GapMode(code, m) && (StepPainted(v, code, m, kinds) <==> GapPainted(code, m, kinds))
  {}

  lemma {:induction false} InkStep(v: Vocabulary, code: string, m: Mode, kinds: Colours)
    requires m.index < |code| && code[m.index] != '\n' && !GapAt(code, m.index)
    ensures NextMode(v, code, m) == InkMode(v, code, m)
    ensures StepPainted(v, code, m, kinds) <==> InkPainted(v, code, m, kinds)
  {}

  lemma {:induction false} OperatorStep(v: Vocabulary, code: string, m: Mode, kinds: Colours)
    requires m.index < |code| && OperatorAt(code, m.index, m.commandStart) > 0
    ensures var end := m.index + OperatorAt(code, m.index, m.commandStart);
      && PlainMode(v, code, m)
        == m.(index := end, commandStart := m.commandStart || Slice(code, m.index, end) in v.starters)
      && (PlainPainted(v, code, m, kinds) <==> Painted(kinds, m.index, end, Some(Punctuation)))
  {}

  lemma {:induction false} WordStep(v: Vocabulary, code: string, m: Mode, kinds: Colours)
    requires m.index < |code| && OperatorAt(code, m.index, m.commandStart) == 0
    ensures var (end, commandStart) := WordResult(v, code, m.index, m.commandStart);
      && PlainMode(v, code, m) == m.(index := end, commandStart := commandStart)
      && (PlainPainted(v, code, m, kinds) <==> WordPainted(v, code, m.index, m.commandStart, kinds))
  {}

  lemma {:induction false} StepStays(v: Vocabulary, code: string, m: Mode, a: Colours, b: Colours)
    requires m.index < |code| && Longer(a, b, code, NextMode(v, code, m).index) && StepPainted(v, code, m, a)
    ensures StepPainted(v, code, m, b)
  {
    if code[m.index] == '\n' {
      LineStep(v, code, m, a);
      LineStays(code, m.index, m.heredocs, a, b);
      LineStep(v, code, m, b);
    } else if GapAt(code, m.index) {
      GapStep(v, code, m, a);
      GapStays(code, m, a, b);
      GapStep(v, code, m, b);
    } else {
      InkStep(v, code, m, a);
      InkStays(v, code, m, a, b);
      InkStep(v, code, m, b);
    }
  }
}
