/** The vocabulary of the scanner: token kinds, tokens, error kinds, errors,
    and the character classes that drive the dispatch. */
module Tokens {
  import opened Wrappers

  /** Every kind of token. Literal kinds carry their decoded payload: an
      integer literal its decimal value, a float literal its digit text. */
  datatype TokenType =
    | String(text: string) | Char(character: char) | Int(number: nat)
    | Float(literal: string) | Bool(truth: bool) | Identifier(name: string) | Null
    | LeftParenthesis | RightParenthesis | LeftBrace | RightBrace
    | Comma | Dot | Semicolon | Arrow
    | Plus | Minus | Asterisk | Slash
    | PlusEqual | MinusEqual | AsteriskEqual | SlashEqual
    | Equal | DoubleEqual | NotEqual
    | Greater | GreaterEqual | Less | LessEqual
    | And | Or | Not | If | Then | Else | For | In | Do | Loop | Match | Let | Const | Fn | Return

  /** A token with its 0-based line, 0-based start column and length in characters. */
  datatype Token = Token(tokenType: TokenType, line: nat, column: nat, length: nat)

  datatype LexerErrorType =
    | UnexpectedCharacter(found: char, expected: Option<char>)
    | MultipleDecimalPoints
    | UnterminatedString
    | InvalidEscapeSequence
    | UnterminatedCharacter
    | EmptyCharacter

  datatype LexerError = LexerError(errorType: LexerErrorType, line: nat, column: nat, length: nat)

  /** What one call of the scanner yields: a token, end of input (Ok(None)), or an error. */
  type LexResult = Result<Option<Token>, LexerError>

  predicate IsDigit(c: char) { '0' <= c <= '9' }

  predicate IsAlpha(c: char) { 'a' <= c <= 'z' || 'A' <= c <= 'Z' }

  /** A character that may begin an identifier. */
  predicate IsWordStart(c: char) { IsAlpha(c) || c == '_' }

  /** A character that may continue an identifier (ASCII alphanumeric or underscore). */
  predicate IsWordChar(c: char) { IsAlpha(c) || IsDigit(c) || c == '_' }

  /** The only characters skipped between tokens. */
  predicate IsWhitespace(c: char) { c == ' ' || c == '\t' || c == '\n' }
}
