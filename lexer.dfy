/** The scanner as the source writes it: an object that walks the source a
    character at a time, keeping the line and column of the next character,
    and yields one token per call of `GetToken`. Every method is proved to
    do what the reference definition in LexerSpec says. */
module Lexing {
  import opened Wrappers
  import opened Tokens
  import opened LexerSpec

  class Lexer {
    /** The text being scanned; `pos` indexes the next unread character
        (the character iterator of the source). */
    const source: string
    var pos: nat
    var line: nat
    var column: nat

    ghost predicate Valid()
      reads this
    {
      pos <= |source|
    }

    ghost function CurrentState(): State
      reads this
    {
      State(pos, line, column)
    }

    /** The state after a token that began at `start` and `startColumn`
        was scanned as `s`, and the result the scanner returned for it. */
    ghost predicate Finished(s: Scan, start: nat, startColumn: nat, r: LexResult)
      reads this
      requires start <= s.end && (s.Fault? ==> start <= s.at)
    {
      pos == s.end && column == startColumn + (s.end - start)
      && r == Report(s, start, line, startColumn)
    }

    constructor (source: string)
      ensures Valid() && this.source == source
      ensures CurrentState() == State(0, 0, 0)
    {
      this.source := source;
      pos, line, column := 0, 0, 0;
    }

    function IsAtEnd(): (b: bool)
      reads this
      requires Valid()
      ensures b <==> pos == |source|
    {
      pos == |source|
    }

    function Peek(): (c: Option<char>)
      reads this
      requires Valid()
      ensures c.Some? <==> pos < |source|
      ensures c.Some? ==> c.value == source[pos]
    {
      if pos < |source| then Some(source[pos]) else None
    }

    /** Consumes one character; only ever called when one remains. */
    method Advance() returns (c: char)
      requires Valid() && pos < |source|
      modifies this
      ensures Valid() && c == source[old(pos)]
      ensures pos == old(pos) + 1 && column == old(column) + 1 && line == old(line)
    {
      c := source[pos];
      pos := pos + 1;
      column := column + 1;
    }

    /** Consumes the next character exactly when it is `expected`. */
    method MatchChar(expected: char) returns (matched: bool)
      requires Valid()
      modifies this
      ensures Valid() && line == old(line)
      ensures matched <==> old(pos) < |source| && source[old(pos)] == expected
      ensures pos == old(pos) + (if matched then 1 else 0)
      ensures column == old(column) + (if matched then 1 else 0)
    {
      if IsAtEnd() {
        return false;
      }
      if Peek().value != expected {
        return false;
      }
      var _ := Advance();
      matched := true;
    }

    /** Skips spaces, tabs and newlines; a newline moves to column 0 of the next line. */
    method SkipWhitespace()
      requires Valid()
      modifies this
      ensures Valid() && old(pos) <= pos
      ensures pos == SkipEnd(source, old(pos))
      ensures line == old(line) + NewlineCount(source[old(pos)..pos])
      ensures column == ColumnAfter(old(column), source[old(pos)..pos])
    {
      while !IsAtEnd()
        invariant Valid() && old(pos) <= pos
        invariant SkipEnd(source, pos) == SkipEnd(source, old(pos))
        invariant line == old(line) + NewlineCount(source[old(pos)..pos])
        invariant column == ColumnAfter(old(column), source[old(pos)..pos])
        decreases |source| - pos
      {
        ghost var skipped := source[old(pos)..pos + 1];
        assert skipped[..|skipped| - 1] == source[old(pos)..pos];
        match Peek().value
        case ' ' | '\t' =>
          var _ := Advance();
        case '\n' =>
          var _ := Advance();
          column := 0;
          line := line + 1;
        case _ =>
          return;
      }
    }

    /** A token of `length` characters that ends at the current column. */
    function MakeToken(tokenType: TokenType, length: nat): (t: Token)
      reads this
      requires length <= column
      ensures t.tokenType == tokenType && t.line == line && t.length == length
      ensures t.column + length == column
    {
      Token(tokenType, line, column - length, length)
    }

    /** An error reported one column before the column it is given. */
    function MakeError(errorType: LexerErrorType, errorLine: nat, errorColumn: nat, length: nat): (e: LexerError)
      requires 1 <= errorColumn
      ensures e.errorType == errorType && e.line == errorLine && e.length == length
      ensures e.column + 1 == errorColumn
    {
      LexerError(errorType, errorLine, errorColumn - 1, length)
    }

    /** Scans one token, or reports end of input or a lexical error. */
    method GetToken() returns (r: LexResult)
      requires Valid()
      modifies this
      ensures Valid()
      ensures NextToken(source, old(CurrentState())) == Step(r, CurrentState())
    {
      SkipWhitespace();
      if IsAtEnd() {
        NextTokenAtEnd(source, old(CurrentState()));
        return Ok(None);
      }
      NextTokenScans(source, old(CurrentState()));
      var c := Advance();
      if IsOperatorStart(c) {
        r := ScanOperator(c);
      } else {
        r := ScanLiteral(c);
      }
    }

    /** The first half of the dispatch on a token's first character, just
        consumed: punctuation, and operators that look one character ahead. */
    method ScanOperator(c: char) returns (r: LexResult)
      requires Valid() && 0 < pos && source[pos - 1] == c && 1 <= column && IsOperatorStart(c)
      modifies this
      ensures Valid() && line == old(line)
      ensures Finished(OperatorAt(source, old(pos) - 1), old(pos) - 1, old(column) - 1, r)
    {
      match c
      case '(' => r := Ok(Some(MakeToken(LeftParenthesis, 1)));
      case ')' => r := Ok(Some(MakeToken(RightParenthesis, 1)));
      case '{' => r := Ok(Some(MakeToken(LeftBrace, 1)));
      case '}' => r := Ok(Some(MakeToken(RightBrace, 1)));
      case '.' => r := Ok(Some(MakeToken(Dot, 1)));
      case ',' => r := Ok(Some(MakeToken(Comma, 1)));
      case ';' => r := Ok(Some(MakeToken(Semicolon, 1)));
      case '+' => r := ScanCompound(Plus, PlusEqual);
      case '-' => r := ScanCompound(Minus, MinusEqual);
      case '*' => r := ScanCompound(Asterisk, AsteriskEqual);
      case '/' => r := ScanCompound(Slash, SlashEqual);
      case '=' => r := ScanEqual();
      case '>' => r := ScanCompound(Greater, GreaterEqual);
      case '<' => r := ScanCompound(Less, LessEqual);
      case '!' => r := ScanBang();
    }

    /** An operator that may be followed by '=': the `…Equal` kind when it
        is, the plain kind otherwise. */
    method ScanCompound(plain: TokenType, withEqual: TokenType) returns (r: LexResult)
      requires Valid() && 0 < pos && 1 <= column
      modifies this
      ensures Valid() && line == old(line)
      ensures Finished(Paired(After(source, old(pos) - 1), plain, withEqual, old(pos) - 1), old(pos) - 1, old(column) - 1, r)
    {
      var m := MatchChar('=');
      r := Ok(Some(if m then MakeToken(withEqual, 2) else MakeToken(plain, 1)));
    }

    /** After '=': `==`, `=>` or `=`. */
    method ScanEqual() returns (r: LexResult)
      requires Valid() && 0 < pos && source[pos - 1] == '=' && 1 <= column
      modifies this
      ensures Valid() && line == old(line)
      ensures Finished(OperatorAt(source, old(pos) - 1), old(pos) - 1, old(column) - 1, r)
    {
      var m := MatchChar('=');
      if m {
        r := Ok(Some(MakeToken(DoubleEqual, 2)));
      } else {
        var arrow := MatchChar('>');
        r := Ok(Some(if arrow then MakeToken(Arrow, 2) else MakeToken(Equal, 1)));
      }
    }

    /** After '!': `!=`, or an error that expected '='. */
    method ScanBang() returns (r: LexResult)
      requires Valid() && 0 < pos && source[pos - 1] == '!' && 1 <= column
      modifies this
      ensures Valid() && line == old(line)
      ensures Finished(OperatorAt(source, old(pos) - 1), old(pos) - 1, old(column) - 1, r)
    {
      var m := MatchChar('=');
      if m {
        r := Ok(Some(MakeToken(NotEqual, 2)));
      } else {
        r := Err(MakeError(UnexpectedCharacter('!', Some('=')), line, column, 1));
      }
    }

    /** The second half of the dispatch: literals, words and unexpected characters. */
    method ScanLiteral(c: char) returns (r: LexResult)
      requires Valid() && 0 < pos && source[pos - 1] == c && 1 <= column
      modifies this
      ensures Valid() && line == old(line)
      ensures Finished(LiteralAt(source, old(pos) - 1), old(pos) - 1, old(column) - 1, r)
    {
      if c == '"' {
        r := ScanString();
      } else if c == '\'' {
        r := ScanChar();
      } else if IsDigit(c) {
        r := ScanNumber(c);
      } else if IsWordStart(c) {
        r := ScanIdentifier(c);
      } else {
        r := Err(MakeError(UnexpectedCharacter(c, None), line, column, 1));
      }
    }

    /** An integer or float literal whose first digit was just consumed. */
    method ScanNumber(first: char) returns (r: LexResult)
      requires Valid() && 0 < pos && source[pos - 1] == first && IsDigit(first) && 1 <= column
      modifies this
      ensures Valid() && line == old(line)
      ensures Finished(NumberAt(source, old(pos) - 1), old(pos) - 1, old(column) - 1, r)
    {
      ghost var start := pos - 1;
      var value := [first];
      var isFloat := false;
      while Peek().Some?
        invariant Valid() && start < pos && line == old(line)
        invariant column == old(column) + (pos - old(pos))
        invariant value == source[start..pos]
        invariant !isFloat ==> AllDigits(value)
        invariant NumberFrom(source, start, pos, isFloat) == NumberAt(source, start)
        decreases |source| - pos
      {
        var c := Peek().value;
        assert source[start..pos + 1] == source[start..pos] + [c];
        if IsDigit(c) {
          assert NumberFrom(source, start, pos, isFloat) == NumberFrom(source, start, pos + 1, isFloat);
          value := value + [c];
          var _ := Advance();
        } else if c == '.' {
          if isFloat {
            assert NumberAt(source, start) == Fault(MultipleDecimalPoints, pos, 1, pos);
            return Err(MakeError(MultipleDecimalPoints, line, column + 1, 1));
          }
          assert NumberFrom(source, start, pos, false) == NumberFrom(source, start, pos + 1, true);
          isFloat := true;
          value := value + [c];
          var _ := Advance();
        } else {
          break;
        }
      }
      if isFloat {
        r := Ok(Some(MakeToken(Float(value), |value|)));
      } else {
        r := Ok(Some(MakeToken(Int(DecimalValue(value)), |value|)));
      }
    }

    /** A string literal whose opening quote was just consumed. */
    method ScanString() returns (r: LexResult)
      requires Valid() && 0 < pos && 1 <= column
      modifies this
      ensures Valid() && line == old(line)
      ensures Finished(StringAt(source, old(pos) - 1), old(pos) - 1, old(column) - 1, r)
    {
      ghost var start := pos - 1;
      var value := [];
      var terminated := false;
      var hasNewline := false;
      var length := 0;
      while true
        invariant Valid() && start < pos && line == old(line)
        invariant column == old(column) + (pos - old(pos))
        invariant !terminated && !hasNewline
        invariant length == pos - (start + 1)
        invariant StringBody(source, pos, value) == StringAt(source, start)
        decreases |source| - pos
      {
        if IsAtEnd() {
          break;
        }
        var c := Advance();
        if c == '\n' {
          hasNewline := true;
          break;
        }
        if c == '"' {
          terminated := true;
          break;
        }
        if c == '\\' {
          if IsAtEnd() {
            return Err(MakeError(UnterminatedString, line, column + 1, 1));
          }
          var next := Advance();
          length := length + 2;
          match next
          case 'n' => value := value + ['\n'];
          case 't' => value := value + ['\t'];
          case 'r' => value := value + ['\r'];
          case '\\' => value := value + ['\\'];
          case '"' => value := value + ['"'];
          case _ => return Err(MakeError(InvalidEscapeSequence, line, column - 1, 2));
        } else {
          value := value + [c];
          length := length + 1;
        }
      }
      if terminated {
        r := Ok(Some(MakeToken(String(value), length + 2)));
      } else {
        r := Err(MakeError(UnterminatedString, line, if hasNewline then column else column + 1, 1));
      }
    }

    /** A character literal whose opening quote was just consumed. */
    method ScanChar() returns (r: LexResult)
      requires Valid() && 0 < pos && 1 <= column
      modifies this
      ensures Valid() && line == old(line)
      ensures Finished(CharAt(source, old(pos) - 1), old(pos) - 1, old(column) - 1, r)
    {
      if IsAtEnd() {
        return Err(MakeError(UnterminatedCharacter, line, column + 1, 1));
      }
      var c := Advance();
      var length := 0;
      var terminated := false;
      var charValue: char;
      if c == '\\' {
        length := length + 1;
        if IsAtEnd() {
          return Err(MakeError(UnterminatedCharacter, line, column, 1));
        }
        var escaped := Advance();
        length := length + 1;
        match escaped
        case 'n' => charValue := '\n';
        case 't' => charValue := '\t';
        case 'r' => charValue := '\r';
        case '\\' => charValue := '\\';
        case '\'' => charValue := '\'';
        case _ => return Err(MakeError(InvalidEscapeSequence, line, column - 1, 2));
      } else if c == '\'' {
        return Err(MakeError(EmptyCharacter, line, column - 1, 2));
      } else if c == '\n' {
        return Err(MakeError(UnterminatedCharacter, line, column, 1));
      } else {
        length := length + 1;
        charValue := c;
      }
      if IsAtEnd() {
        return Err(MakeError(UnterminatedCharacter, line, column + 1, 1));
      }
      var close := Advance();
      if close == '\'' {
        terminated := true;
      }
      if terminated {
        r := Ok(Some(MakeToken(Char(charValue), length + 2)));
      } else {
        r := Err(MakeError(UnterminatedCharacter, line, column, 1));
      }
    }

    /** An identifier or keyword whose first character was just consumed. */
    method ScanIdentifier(first: char) returns (r: LexResult)
      requires Valid() && 0 < pos && source[pos - 1] == first && 1 <= column
      modifies this
      ensures Valid() && line == old(line)
      ensures Finished(IdentifierAt(source, old(pos) - 1), old(pos) - 1, old(column) - 1, r)
    {
      ghost var start := pos - 1;
      var value := [first];
      while true
        invariant Valid() && start < pos && line == old(line)
        invariant column == old(column) + (pos - old(pos))
        invariant value == source[start..pos]
        invariant WordEnd(source, pos) == WordEnd(source, start + 1)
        decreases |source| - pos
      {
        if IsAtEnd() {
          break;
        }
        var c := Peek().value;
        assert source[start..pos + 1] == source[start..pos] + [c];
        if IsWordChar(c) {
          var d := Advance();
          value := value + [d];
        } else {
          break;
        }
      }
      r := Ok(Some(WordToken(value)));
    }

    /** The token for a word that ends at the current column: a keyword
        with its fixed length, or an identifier as long as the word. */
    function WordToken(value: string): (t: Token)
      reads this
      requires |value| <= column
      ensures t == Token(WordKind(value), line, column - |value|, |value|)
    {
      match KeywordToken(value)
      case Some((kind, length)) => MakeToken(kind, length)
      case None => MakeToken(Identifier(value), |value|)
    }
  }

  /** The keyword match at the end of identifier scanning: each reserved
      spelling with its kind and its length as written out in the scanner. */
  function KeywordToken(word: string): (r: Option<(TokenType, nat)>)
    ensures r.Some? <==> Keyword(word).Some?
    ensures r.Some? ==> r.value.0 == Keyword(word).value && r.value.1 == |word|
  {
    match word
    case "true" => Some((Bool(true), 4))
    case "false" => Some((Bool(false), 5))
    case "null" => Some((Null, 4))
    case "and" => Some((And, 3))
    case "or" => Some((Or, 2))
    case "not" => Some((Not, 3))
    case "if" => Some((If, 2))
    case "then" => Some((Then, 4))
    case "else" => Some((Else, 4))
    case "for" => Some((For, 3))
    case "in" => Some((In, 2))
    case "do" => Some((Do, 2))
    case "loop" => Some((Loop, 4))
    case "match" => Some((Match, 5))
    case "let" => Some((Let, 3))
    case "const" => Some((Const, 5))
    case "fn" => Some((Fn, 2))
    case "return" => Some((Return, 6))
    case _ => None
  }
}
