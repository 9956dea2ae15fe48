/** A reference definition of the scanner as pure functions over the whole
    source text. `NextToken` says what one call of the scanner yields and
    where it leaves the position, line and column; the `Lexer` class is
    proved to agree with it, and the properties of the scanner are proved
    about it. */
module LexerSpec {
  import opened Wrappers
  import opened Tokens

  /** The outcome of scanning one token that starts at some index `start`.
      `end` is the index just past the last character consumed. A fault
      names, as a source index `at`, the character whose column the error
      reports. */
  datatype Scan =
    | Lexeme(tokenType: TokenType, end: nat)
    | Fault(errorType: LexerErrorType, at: nat, length: nat, end: nat)

  /** Where the scanner stands: index into the source, line and column. */
  datatype State = State(pos: nat, line: nat, column: nat)

  /** One call of the scanner: its result and the state it leaves behind. */
  datatype Step = Step(result: LexResult, state: State)

  /** A scan that consumed characters in [lo, end) of a source of length n. */
  predicate Within(s: Scan, lo: nat, n: nat)
  {
    lo <= s.end <= n && (s.Fault? ==> lo <= s.at <= s.end && s.length >= 1)
  }

  // ---------------------------------------------------------------- whitespace

  /** The index of the first character at or after p that is not skipped. */
  function SkipEnd(src: string, p: nat): (e: nat)
    requires p <= |src|
    ensures p <= e <= |src|
    ensures forall i | p <= i < e :: IsWhitespace(src[i])
    ensures e < |src| ==> !IsWhitespace(src[e])
    decreases |src| - p
  {
    if p < |src| && IsWhitespace(src[p]) then SkipEnd(src, p + 1) else p
  }

  /** The number of newlines in s. */
  function NewlineCount(s: string): nat
  {
    if s == [] then 0
    else NewlineCount(s[..|s| - 1]) + (if s[|s| - 1] == '\n' then 1 else 0)
  }

  /** The column after consuming s from `column`, a character at a time:
      a newline sets it to 0, anything else adds one. */
  function ColumnAfter(column: nat, s: string): nat
  {
    if s == [] then column
    else if s[|s| - 1] == '\n' then 0
    else ColumnAfter(column, s[..|s| - 1]) + 1
  }

  // ------------------------------------------------------------------ numbers

  function DigitsEnd(src: string, i: nat): (e: nat)
    requires i <= |src|
    ensures i <= e <= |src|
    ensures e < |src| ==> !IsDigit(src[e])
    decreases |src| - i
  {
    if i < |src| && IsDigit(src[i]) then DigitsEnd(src, i + 1) else i
  }

  predicate AllDigits(s: string)
  {
    forall k | 0 <= k < |s| :: IsDigit(s[k])
  }

  function DigitValue(c: char): nat
    requires IsDigit(c)
  {
    c as int - '0' as int
  }

  /** The value of a decimal numeral (an integer literal's payload). */
  function DecimalValue(ds: string): nat
    requires AllDigits(ds)
  {
    if ds == [] then 0 else DecimalValue(ds[..|ds| - 1]) * 10 + DigitValue(ds[|ds| - 1])
  }

  /** The rest of a numeral that began at `start`, read from index i; the
      flag says whether a '.' has been read already. */
  function NumberFrom(src: string, start: nat, i: nat, isFloat: bool): (s: Scan)
    requires start < i <= |src| && (!isFloat ==> AllDigits(src[start..i]))
    ensures Within(s, i, |src|)
    decreases |src| - i
  {
    if i < |src| && IsDigit(src[i]) then
      assert src[start..i + 1] == src[start..i] + [src[i]];
      NumberFrom(src, start, i + 1, isFloat)
    else if i < |src| && src[i] == '.' then
      if isFloat then Fault(MultipleDecimalPoints, i, 1, i)
      else NumberFrom(src, start, i + 1, true)
    else if isFloat then Lexeme(Float(src[start..i]), i)
    else Lexeme(Int(DecimalValue(src[start..i])), i)
  }

  /** A numeral whose first digit is at p. */
  function NumberAt(src: string, p: nat): (s: Scan)
    requires p < |src| && IsDigit(src[p])
    ensures p < s.end && Within(s, p, |src|)
  {
    NumberFrom(src, p, p + 1, false)
  }

  // ------------------------------------------------------------------ strings

  /** The character a string escape `\c` stands for, if it is one. */
  function StringEscape(c: char): Option<char>
  {
    match c
    case 'n' => Some('\n')
    case 't' => Some('\t')
    case 'r' => Some('\r')
    case '\\' => Some('\\')
    case '"' => Some('"')
    case _ => None
  }

  /** One unit of a string body at i, which is neither the end of input
      nor the closing quote: the character it stands for and how many
      source characters spell it, or the error it is. */
  function StringUnit(src: string, i: nat): (u: Result<(char, nat), Scan>)
    requires i < |src| && src[i] != '"'
    ensures u.Ok? ==> 1 <= u.value.1 <= 2 && i + u.value.1 <= |src|
    ensures u.Err? ==> Within(u.error, i, |src|)
  {
    if src[i] == '\n' then Err(Fault(UnterminatedString, i, 1, i + 1))
    else if src[i] == '\\' then
      if i + 1 == |src| then Err(Fault(UnterminatedString, i + 1, 1, i + 1))
      else match StringEscape(src[i + 1])
        case Some(d) => Ok((d, 2))
        case None => Err(Fault(InvalidEscapeSequence, i, 2, i + 2))
    else Ok((src[i], 1))
  }

  /** The rest of a string literal from i, `acc` holding what has been
      decoded so far. */
  function StringBody(src: string, i: nat, acc: string): (s: Scan)
    requires i <= |src|
    ensures Within(s, i, |src|)
    decreases |src| - i
  {
    if i == |src| then Fault(UnterminatedString, i, 1, i)
    else if src[i] == '"' then Lexeme(String(acc), i + 1)
    else match StringUnit(src, i)
      case Ok((d, width)) => StringBody(src, i + width, acc + [d])
      case Err(fault) => fault
  }

  /** A string literal whose opening quote is at p. */
  function StringAt(src: string, p: nat): (s: Scan)
    requires p < |src|
    ensures p < s.end && Within(s, p, |src|)
  {
    StringBody(src, p + 1, [])
  }

  // --------------------------------------------------------------- characters

  /** The character a character escape `\c` stands for, if it is one. */
  function CharEscape(c: char): Option<char>
  {
    match c
    case 'n' => Some('\n')
    case 't' => Some('\t')
    case 'r' => Some('\r')
    case '\\' => Some('\\')
    case '\'' => Some('\'')
    case _ => None
  }

  /** The closing quote of a character literal, expected at k, with body d. */
  function CharClose(src: string, k: nat, d: char): (s: Scan)
    requires k <= |src|
    ensures Within(s, k, |src|)
    ensures s.Lexeme? <==> k < |src| && src[k] == '\''
    ensures s.Lexeme? ==> s == Lexeme(Char(d), k + 1)
    ensures s.Fault? ==> s.at == k && s.errorType == UnterminatedCharacter
  {
    if k == |src| then Fault(UnterminatedCharacter, k, 1, k)
    else if src[k] == '\'' then Lexeme(Char(d), k + 1)
    else Fault(UnterminatedCharacter, k, 1, k + 1)
  }

  /** A character literal whose opening quote is at p. */
  function CharAt(src: string, p: nat): (s: Scan)
    requires p < |src|
    ensures p < s.end && Within(s, p, |src|)
  {
    var j := p + 1;
    if j == |src| then Fault(UnterminatedCharacter, j, 1, j)
    else if src[j] == '\\' then
      if j + 1 == |src| then Fault(UnterminatedCharacter, j, 1, j + 1)
      else match CharEscape(src[j + 1])
        case Some(d) => CharClose(src, j + 2, d)
        case None => Fault(InvalidEscapeSequence, j, 2, j + 2)
    else if src[j] == '\'' then Fault(EmptyCharacter, p, 2, j + 1)
    else if src[j] == '\n' then Fault(UnterminatedCharacter, j, 1, j + 1)
    else CharClose(src, j + 1, src[j])
  }

  // -------------------------------------------------------------- identifiers

  function WordEnd(src: string, i: nat): (e: nat)
    requires i <= |src|
    ensures i <= e <= |src|
    ensures e < |src| ==> !IsWordChar(src[e])
    decreases |src| - i
  {
    if i < |src| && IsWordChar(src[i]) then WordEnd(src, i + 1) else i
  }

  /** The reserved words and the kind each one is scanned as: never an
      identifier, two to six letters long, `true` and `false` as the two
      booleans. */
  function Keyword(w: string): (k: Option<TokenType>)
    ensures k.Some? ==> !k.value.Identifier? && 2 <= |w| <= 6
    ensures k.Some? && k.value.Bool? ==> k.value.truth == (w == "true") && (w == "true" || w == "false")
  {
    match w
    case "true" => Some(Bool(true))
    case "false" => Some(Bool(false))
    case "null" => Some(Null)
    case "and" => Some(And)
    case "or" => Some(Or)
    case "not" => Some(Not)
    case "if" => Some(If)
    case "then" => Some(Then)
    case "else" => Some(Else)
    case "for" => Some(For)
    case "in" => Some(In)
    case "do" => Some(Do)
    case "loop" => Some(Loop)
    case "match" => Some(Match)
    case "let" => Some(Let)
    case "const" => Some(Const)
    case "fn" => Some(Fn)
    case "return" => Some(Return)
    case _ => None
  }

  /** The kind of a scanned word: its keyword kind, or an identifier. */
  function WordKind(w: string): (t: TokenType)
    ensures t.Identifier? <==> Keyword(w).None?
    ensures t.Identifier? ==> t.name == w
  {
    match Keyword(w)
    case Some(k) => k
    case None => Identifier(w)
  }

  /** A word starting at p: the longest run of word characters. */
  function IdentifierAt(src: string, p: nat): (s: Scan)
    requires p < |src|
    ensures p < s.end && Within(s, p, |src|)
  {
    var e := WordEnd(src, p + 1);
    Lexeme(WordKind(src[p..e]), e)
  }

  // ---------------------------------------------------------------- operators

  /** The character after index p, if any. */
  function After(src: string, p: nat): Option<char>
  {
    if p + 1 < |src| then Some(src[p + 1]) else None
  }

  /** A character that starts a punctuation or operator token. */
  predicate IsOperatorStart(c: char)
  {
    c == '(' || c == ')' || c == '{' || c == '}' || c == '.' || c == ',' || c == ';'
    || c == '+' || c == '-' || c == '*' || c == '/' || c == '=' || c == '>' || c == '<' || c == '!'
  }

  /** An operator that takes an optional '=' after it. */
  function Paired(next: Option<char>, plain: TokenType, withEqual: TokenType, p: nat): (s: Scan)
    ensures s.Lexeme? && p < s.end <= p + 2
  {
    if next == Some('=') then Lexeme(withEqual, p + 2) else Lexeme(plain, p + 1)
  }

  /** A punctuation or operator token at p: one character, or two when the
      operator takes the character after it. */
  function OperatorAt(src: string, p: nat): (s: Scan)
    requires p < |src| && IsOperatorStart(src[p])
    ensures p < s.end <= p + 2 && Within(s, p, |src|)
  {
    var next := After(src, p);
    match src[p]
    case '(' => Lexeme(LeftParenthesis, p + 1)
    case ')' => Lexeme(RightParenthesis, p + 1)
    case '{' => Lexeme(LeftBrace, p + 1)
    case '}' => Lexeme(RightBrace, p + 1)
    case '.' => Lexeme(Dot, p + 1)
    case ',' => Lexeme(Comma, p + 1)
    case ';' => Lexeme(Semicolon, p + 1)
    case '+' => Paired(next, Plus, PlusEqual, p)
    case '-' => Paired(next, Minus, MinusEqual, p)
    case '*' => Paired(next, Asterisk, AsteriskEqual, p)
    case '/' => Paired(next, Slash, SlashEqual, p)
    case '=' =>
      if next == Some('=') then Lexeme(DoubleEqual, p + 2)
      else if next == Some('>') then Lexeme(Arrow, p + 2)
      else Lexeme(Equal, p + 1)
    case '>' => Paired(next, Greater, GreaterEqual, p)
    case '<' => Paired(next, Less, LessEqual, p)
    case '!' =>
      if next == Some('=') then Lexeme(NotEqual, p + 2)
      else Fault(UnexpectedCharacter('!', Some('=')), p, 1, p + 1)
  }

  /** A literal or word at p, or an unexpected character. */
  function LiteralAt(src: string, p: nat): (s: Scan)
    requires p < |src|
    ensures p < s.end && Within(s, p, |src|)
  {
    var c := src[p];
    if IsDigit(c) then NumberAt(src, p)
    else if c == '"' then StringAt(src, p)
    else if c == '\'' then CharAt(src, p)
    else if IsWordStart(c) then IdentifierAt(src, p)
    else Fault(UnexpectedCharacter(c, None), p, 1, p + 1)
  }

  /** One token whose first character is at p. */
  function LexAt(src: string, p: nat): (s: Scan)
    requires p < |src|
    ensures p < s.end && Within(s, p, |src|)
  {
    if IsOperatorStart(src[p]) then OperatorAt(src, p) else LiteralAt(src, p)
  }

  // ---------------------------------------------------------------- one call

  /** Turns a scan that began at `start`, on `line`, at `column`, into what
      the scanner reports: a token whose length is the number of characters
      consumed, or an error at the column of the source index `at`. */
  function Report(s: Scan, start: nat, line: nat, column: nat): (r: LexResult)
    requires start <= s.end && (s.Fault? ==> start <= s.at)
    ensures r != Ok(None)
    ensures r.Ok? <==> s.Lexeme?
    ensures r.Ok? ==> r.value.value.length == s.end - start && r.value.value.column == column
    ensures r.Err? ==> r.error.line == line && column <= r.error.column
  {
    match s
    case Lexeme(k, end) => Ok(Some(Token(k, line, column, end - start)))
    case Fault(kind, at, len, _) => Err(LexerError(kind, line, column + (at - start), len))
  }

  /** One call of the scanner from state st: skip whitespace, then scan one
      token or report end of input. */
  function NextToken(src: string, st: State): (r: Step)
    requires st.pos <= |src|
    ensures st.pos <= r.state.pos <= |src| && st.line <= r.state.line
    ensures r.result == Ok(None) <==> SkipEnd(src, st.pos) == |src|
  {
    var e := SkipEnd(src, st.pos);
    var skipped := src[st.pos..e];
    var line := st.line + NewlineCount(skipped);
    var column := ColumnAfter(st.column, skipped);
    if e == |src| then Step(Ok(None), State(e, line, column))
    else
      var s := LexAt(src, e);
      Step(Report(s, e, line, column), State(s.end, line, column + (s.end - e)))
  }

  /** NextToken when only whitespace is left. */
  lemma NextTokenAtEnd(src: string, st: State)
    requires st.pos <= |src| && SkipEnd(src, st.pos) == |src|
    ensures
      var skipped := src[st.pos..|src|];
      NextToken(src, st) == Step(Ok(None), State(|src|, st.line + NewlineCount(skipped), ColumnAfter(st.column, skipped)))
  {
  }

  /** NextToken when a token begins after the whitespace. */
  lemma NextTokenScans(src: string, st: State)
    requires st.pos <= |src| && SkipEnd(src, st.pos) < |src|
    ensures
      var e := SkipEnd(src, st.pos);
      var skipped := src[st.pos..e];
      var line := st.line + NewlineCount(skipped);
      var column := ColumnAfter(st.column, skipped);
      var s := LexAt(src, e);
      NextToken(src, st) == Step(Report(s, e, line, column), State(s.end, line, column + (s.end - e)))
  {
  }
}
