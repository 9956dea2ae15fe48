/** Properties of the scanner, proved about its reference definition. The
    `Lexer` class is proved equal to that definition, so each of them holds
    of what `GetToken` returns. */
module LexerProperties {
  import opened Wrappers
  import opened Tokens
  import opened LexerSpec

  // ------------------------------------------------------------ end of input

  /** A call reports end of input exactly when nothing but spaces, tabs and
      newlines is left; otherwise it consumes at least one character past
      the whitespace. */
  lemma EndOfInput(src: string, st: State)
    requires st.pos <= |src|
    ensures NextToken(src, st).result == Ok(None)
            <==> forall i | st.pos <= i < |src| :: IsWhitespace(src[i])
    ensures NextToken(src, st).result != Ok(None)
            ==> SkipEnd(src, st.pos) < NextToken(src, st).state.pos
  {
    var e := SkipEnd(src, st.pos);
    if e < |src| {
      assert !IsWhitespace(src[e]);
      var s := LexAt(src, e);
      assert NextToken(src, st).result == Report(s, e, st.line + NewlineCount(src[st.pos..e]),
                                                 ColumnAfter(st.column, src[st.pos..e]));
    }
  }

  /** Once the end of input has been reported, every later call reports
      it again and leaves the position, line and column as they are. */
  lemma EndIsFinal(src: string, st: State)
    requires st.pos <= |src| && NextToken(src, st).result == Ok(None)
    ensures var after := NextToken(src, st).state;
      after.pos == |src| && NextToken(src, after) == Step(Ok(None), after)
  {
    EndOfInput(src, st);
    var after := NextToken(src, st).state;
    assert src[after.pos..SkipEnd(src, after.pos)] == [];
  }

  // ----------------------------------------------------- positions of tokens

  /** A token's length is the number of characters consumed for it, so its
      column, which is the column left behind minus the length, is the
      column of its first character; an error lies on the token's line, at
      or after its first column. */
  lemma TokenSpansConsumed(src: string, st: State)
    requires st.pos <= |src|
    ensures
      var step := NextToken(src, st);
      var start := SkipEnd(src, st.pos);
      var startColumn := ColumnAfter(st.column, src[st.pos..start]);
      (step.result.Ok? && step.result.value.Some? ==>
        var t := step.result.value.value;
        1 <= t.length == step.state.pos - start
        && t.column == startColumn && t.line == step.state.line
        && t.column + t.length == step.state.column)
      && (step.result.Err? ==>
        var e := step.result.error;
        e.line == step.state.line && startColumn <= e.column <= startColumn + (|src| - start))
  {
  }

  lemma {:induction false} NewlineCountAppend(s: string, t: string)
    ensures NewlineCount(s + t) == NewlineCount(s) + NewlineCount(t)
    decreases |t|
  {
    if t == [] {
      assert s + t == s;
    } else {
      var u := t[..|t| - 1];
      assert (s + t)[..|s + t| - 1] == s + u;
      NewlineCountAppend(s, u);
    }
  }

  /** There is at most one newline per character, and none exactly when
      the text holds no newline character. */
  lemma {:induction false} NewlineCountBounds(s: string)
    ensures NewlineCount(s) <= |s|
    ensures NewlineCount(s) == 0 <==> '\n' !in s
    decreases |s|
  {
    if s != [] {
      assert s == s[..|s| - 1] + [s[|s| - 1]];
      NewlineCountBounds(s[..|s| - 1]);
    }
  }

  /** Without a newline the column moves one per character; after one it
      counts only what follows the last newline, so it is below |s|. */
  lemma {:induction false} ColumnAfterBounds(column: nat, s: string)
    ensures '\n' !in s ==> ColumnAfter(column, s) == column + |s|
    ensures '\n' in s ==> ColumnAfter(column, s) < |s|
    decreases |s|
  {
    if s != [] {
      assert s == s[..|s| - 1] + [s[|s| - 1]];
      ColumnAfterBounds(column, s[..|s| - 1]);
    }
  }

  /** A newline adds one line, and the column afterwards counts only the
      characters after the last newline. */
  lemma {:induction false} SkipPastNewline(column: nat, s: string, t: string)
    requires '\n' !in t
    ensures NewlineCount(s + ['\n'] + t) == NewlineCount(s) + 1
    ensures ColumnAfter(column, s + ['\n'] + t) == |t|
    decreases |t|
  {
    NewlineCountAppend(s + ['\n'], t);
    NewlineCountBounds(t);
    assert (s + ['\n'])[..|s|] == s;
    if t == [] {
      assert s + ['\n'] + t == s + ['\n'];
    } else {
      var u := t[..|t| - 1];
      assert t == u + [t[|t| - 1]];
      assert (s + ['\n'] + t)[..|s| + 1 + |t| - 1] == s + ['\n'] + u;
      SkipPastNewline(column, s, u);
    }
  }

  // ---------------------------------------------------------------- operators

  /** An operator character followed by '=' is the two-character `…Equal`
      operator; `=>` is the arrow. */
  lemma TwoCharacterOperators(src: string, p: nat)
    requires p + 1 < |src|
    ensures src[p + 1] == '=' ==>
      (src[p] == '+' ==> LexAt(src, p) == Lexeme(PlusEqual, p + 2))
      && (src[p] == '-' ==> LexAt(src, p) == Lexeme(MinusEqual, p + 2))
      && (src[p] == '*' ==> LexAt(src, p) == Lexeme(AsteriskEqual, p + 2))
      && (src[p] == '/' ==> LexAt(src, p) == Lexeme(SlashEqual, p + 2))
      && (src[p] == '>' ==> LexAt(src, p) == Lexeme(GreaterEqual, p + 2))
      && (src[p] == '<' ==> LexAt(src, p) == Lexeme(LessEqual, p + 2))
      && (src[p] == '=' ==> LexAt(src, p) == Lexeme(DoubleEqual, p + 2))
      && (src[p] == '!' ==> LexAt(src, p) == Lexeme(NotEqual, p + 2))
    ensures src[p] == '=' && src[p + 1] == '>' ==> LexAt(src, p) == Lexeme(Arrow, p + 2)
  {
  }

  /** Without a following '=' (or '>' after '='), an operator is one
      character long; a lone '!' is an error that expected '='. */
  lemma OneCharacterOperators(src: string, p: nat)
    requires p < |src| && After(src, p) != Some('=')
    ensures src[p] == '+' ==> LexAt(src, p) == Lexeme(Plus, p + 1)
    ensures src[p] == '-' ==> LexAt(src, p) == Lexeme(Minus, p + 1)
    ensures src[p] == '*' ==> LexAt(src, p) == Lexeme(Asterisk, p + 1)
    ensures src[p] == '/' ==> LexAt(src, p) == Lexeme(Slash, p + 1)
    ensures src[p] == '>' ==> LexAt(src, p) == Lexeme(Greater, p + 1)
    ensures src[p] == '<' ==> LexAt(src, p) == Lexeme(Less, p + 1)
    ensures src[p] == '=' && After(src, p) != Some('>') ==> LexAt(src, p) == Lexeme(Equal, p + 1)
    ensures src[p] == '!' ==> LexAt(src, p) == Fault(UnexpectedCharacter('!', Some('=')), p, 1, p + 1)
  {
  }

  /** Punctuation is always one character. */
  lemma Punctuation(src: string, p: nat)
    requires p < |src|
    ensures src[p] == '(' ==> LexAt(src, p) == Lexeme(LeftParenthesis, p + 1)
    ensures src[p] == ')' ==> LexAt(src, p) == Lexeme(RightParenthesis, p + 1)
    ensures src[p] == '{' ==> LexAt(src, p) == Lexeme(LeftBrace, p + 1)
    ensures src[p] == '}' ==> LexAt(src, p) == Lexeme(RightBrace, p + 1)
    ensures src[p] == '.' ==> LexAt(src, p) == Lexeme(Dot, p + 1)
    ensures src[p] == ',' ==> LexAt(src, p) == Lexeme(Comma, p + 1)
    ensures src[p] == ';' ==> LexAt(src, p) == Lexeme(Semicolon, p + 1)
  {
  }

  /** A character that begins no token is reported as unexpected, with no
      expected character, on its own column. */
  lemma UnexpectedCharacters(src: string, p: nat)
    requires p < |src|
    requires !IsOperatorStart(src[p]) && !IsDigit(src[p]) && !IsWordStart(src[p])
    requires src[p] != '"' && src[p] != '\''
    ensures LexAt(src, p) == Fault(UnexpectedCharacter(src[p], None), p, 1, p + 1)
  {
  }

  // ------------------------------------------------------------------ numbers

  lemma {:induction false} DigitsEndOfRun(src: string, i: nat, j: nat)
    requires i <= j <= |src|
    requires forall k | i <= k < j :: IsDigit(src[k])
    requires j < |src| ==> !IsDigit(src[j])
    ensures DigitsEnd(src, i) == j
    decreases j - i
  {
    if i < j {
      DigitsEndOfRun(src, i + 1, j);
    }
  }

  lemma {:induction false} NumberFromSkipsDigits(src: string, start: nat, i: nat, isFloat: bool)
    requires start < i <= |src| && (!isFloat ==> AllDigits(src[start..i]))
    ensures !isFloat ==> AllDigits(src[start..DigitsEnd(src, i)])
    ensures NumberFrom(src, start, i, isFloat) == NumberFrom(src, start, DigitsEnd(src, i), isFloat)
    decreases |src| - i
  {
    if i < |src| && IsDigit(src[i]) {
      assert src[start..i + 1] == src[start..i] + [src[i]];
      NumberFromSkipsDigits(src, start, i + 1, isFloat);
    }
  }

  /** A run of digits not followed by '.' is an integer literal as long as
      the run, whose value is the run read in decimal. */
  lemma IntegerShape(src: string, p: nat)
    requires p < |src| && IsDigit(src[p])
    requires var e := DigitsEnd(src, p + 1); !(e < |src| && src[e] == '.')
    ensures AllDigits(src[p..DigitsEnd(src, p + 1)])
    ensures NumberAt(src, p)
            == Lexeme(Int(DecimalValue(src[p..DigitsEnd(src, p + 1)])), DigitsEnd(src, p + 1))
  {
    assert src[p..p + 1] == [src[p]];
    NumberFromSkipsDigits(src, p, p + 1, false);
  }

  /** A run of digits, a '.', and a second run of digits is a float literal
      made of exactly those characters, unless a second '.' follows, which
      is an error reported at that second '.'. */
  lemma FloatShape(src: string, p: nat)
    requires p < |src| && IsDigit(src[p])
    requires var e := DigitsEnd(src, p + 1); e < |src| && src[e] == '.'
    ensures
      var e2 := DigitsEnd(src, DigitsEnd(src, p + 1) + 1);
      NumberAt(src, p) == if e2 < |src| && src[e2] == '.' then Fault(MultipleDecimalPoints, e2, 1, e2)
                          else Lexeme(Float(src[p..e2]), e2)
  {
    var e1 := DigitsEnd(src, p + 1);
    assert src[p..p + 1] == [src[p]];
    NumberFromSkipsDigits(src, p, p + 1, false);
    NumberFromSkipsDigits(src, p, e1 + 1, true);
  }

  /** Every character before the end of a digit run is a digit. */
  lemma {:induction false} DigitsBeforeEnd(src: string, i: nat, k: nat)
    requires i <= k && i <= |src| && k < DigitsEnd(src, i)
    ensures IsDigit(src[k])
    decreases k - i
  {
    if i < k {
      DigitsBeforeEnd(src, i + 1, k);
    }
  }

  /** A number never holds two dots: an integer literal is all digits, a
      float literal is all digits but for one '.', and a second '.' is
      reported where it stands, one '.' after the first. */
  lemma AtMostOneDecimalPoint(src: string, p: nat)
    requires p < |src| && IsDigit(src[p])
    ensures
      var s := NumberAt(src, p);
      var dot := DigitsEnd(src, p + 1);
      (s.Lexeme? && s.tokenType.Int? ==> forall i | p <= i < s.end :: IsDigit(src[i]))
      && (s.Lexeme? && s.tokenType.Float? ==>
            p < dot < s.end && src[dot] == '.'
            && forall i | p <= i < s.end && i != dot :: IsDigit(src[i]))
      && (s.Fault? ==>
            s.errorType == MultipleDecimalPoints && s.at < |src| && src[s.at] == '.'
            && p < dot < s.at && src[dot] == '.'
            && forall i | p <= i < s.at && i != dot :: IsDigit(src[i]))
  {
    var e1 := DigitsEnd(src, p + 1);
    forall i | p < i < e1 ensures IsDigit(src[i]) {
      DigitsBeforeEnd(src, p + 1, i);
    }
    if e1 < |src| && src[e1] == '.' {
      FloatShape(src, p);
      var e2 := DigitsEnd(src, e1 + 1);
      forall i | e1 < i < e2 ensures IsDigit(src[i]) {
        DigitsBeforeEnd(src, e1 + 1, i);
      }
    } else {
      IntegerShape(src, p);
    }
  }

  function Pow10(k: nat): nat
  {
    if k == 0 then 1 else 10 * Pow10(k - 1)
  }

  /** A numeral of k digits has a value below 10 to the k, and the value is
      0 exactly when every digit is '0'. */
  lemma {:induction false} DecimalValueBounds(ds: string)
    requires AllDigits(ds)
    ensures DecimalValue(ds) < Pow10(|ds|)
    ensures DecimalValue(ds) == 0 <==> forall k | 0 <= k < |ds| :: ds[k] == '0'
    decreases |ds|
  {
    if ds != [] {
      var init := ds[..|ds| - 1];
      assert forall k | 0 <= k < |init| :: init[k] == ds[k];
      DecimalValueBounds(init);
    }
  }

  /** The decimal numeral of n. */
  function Decimal(n: nat): (ds: string)
    ensures 1 <= |ds| && AllDigits(ds)
    decreases n
  {
    var last := ('0' as int + n % 10) as char;
    if n < 10 then [last] else Decimal(n / 10) + [last]
  }

  lemma {:induction false} DecimalRoundTrip(n: nat)
    ensures DecimalValue(Decimal(n)) == n
    decreases n
  {
    var ds := Decimal(n);
    assert ds[..|ds| - 1] == if n < 10 then [] else Decimal(n / 10);
    if 10 <= n {
      DecimalRoundTrip(n / 10);
    }
  }

  /** The decimal numeral of any n, followed by neither a digit nor a '.',
      is the integer literal n, as long as the numeral. */
  lemma IntegerLiteral(src: string, p: nat, n: nat)
    requires p + |Decimal(n)| <= |src| && src[p..p + |Decimal(n)|] == Decimal(n)
    requires p + |Decimal(n)| < |src| ==> !IsDigit(src[p + |Decimal(n)|]) && src[p + |Decimal(n)|] != '.'
    ensures LexAt(src, p) == Lexeme(Int(n), p + |Decimal(n)|)
  {
    var ds := Decimal(n);
    var e := p + |ds|;
    assert src[p] == ds[0];
    forall k | p + 1 <= k < e ensures IsDigit(src[k]) {
      assert src[k] == ds[k - p];
    }
    DigitsEndOfRun(src, p + 1, e);
    IntegerShape(src, p);
    DecimalRoundTrip(n);
  }

  // ------------------------------------------------------------------ strings

  /** How a string literal spells a character: the five escapable ones as
      their escape, any other as itself. */
  function StringSpelling(c: char): string
  {
    match StringEscapeLetter(c)
    case Some(x) => ['\\', x]
    case None => [c]
  }

  /** The letter after the backslash that spells c, for the five characters
      a string literal escapes. */
  function StringEscapeLetter(c: char): (x: Option<char>)
  {
    match c
    case '\n' => Some('n')
    case '\t' => Some('t')
    case '\r' => Some('r')
    case '\\' => Some('\\')
    case '"' => Some('"')
    case _ => None
  }

  /** The string escapes are exactly the inverse of how strings spell
      the escapable characters. */
  lemma StringEscapesInvert(c: char, x: char)
    ensures StringEscape(x) == Some(c) <==> StringEscapeLetter(c) == Some(x)
  {
  }

  /** The body of a string literal that stands for s. */
  function Escape(s: string): string
  {
    if s == [] then [] else StringSpelling(s[0]) + Escape(s[1..])
  }

  /** Reading the spelling of one character decodes that character. */
  lemma StringBodyReadsOne(src: string, i: nat, acc: string, c: char)
    requires i + |StringSpelling(c)| <= |src| && src[i..i + |StringSpelling(c)|] == StringSpelling(c)
    ensures StringBody(src, i, acc) == StringBody(src, i + |StringSpelling(c)|, acc + [c])
  {
    var e := StringSpelling(c);
    assert src[i] == e[0];
    if |e| == 2 {
      assert src[i + 1] == e[1];
    }
  }

  /** A slice equal to a concatenation splits into its two parts. */
  lemma SliceSplit(src: string, i: nat, a: string, b: string)
    requires i + |a + b| <= |src| && src[i..i + |a + b|] == a + b
    ensures src[i..i + |a|] == a && src[i + |a|..i + |a| + |b|] == b
  {
    assert src[i..i + |a|] == (a + b)[..|a|];
    assert src[i + |a|..i + |a| + |b|] == (a + b)[|a|..];
  }

  /** A spelled-out body splits into the spelling of its first character
      and the spelled-out rest. */
  lemma EscapeSplit(src: string, i: nat, k: nat, s: string)
    requires i <= k <= |src| && src[i..k] == Escape(s) && s != []
    ensures i + |StringSpelling(s[0])| <= k
    ensures src[i..i + |StringSpelling(s[0])|] == StringSpelling(s[0])
    ensures src[i + |StringSpelling(s[0])|..k] == Escape(s[1..])
  {
    assert Escape(s) == StringSpelling(s[0]) + Escape(s[1..]);
    SliceSplit(src, i, StringSpelling(s[0]), Escape(s[1..]));
  }

  /** Reading a spelled-out body, from i up to k, decodes exactly the
      string it spells. */
  lemma {:induction false} StringBodyReads(src: string, i: nat, k: nat, acc: string, s: string)
    requires i <= k <= |src| && src[i..k] == Escape(s)
    ensures StringBody(src, i, acc) == StringBody(src, k, acc + s)
    decreases s
  {
    if s == [] {
      assert acc + s == acc;
    } else {
      EscapeSplit(src, i, k, s);
      var j := i + |StringSpelling(s[0])|;
      assert acc + [s[0]] + s[1..] == acc + s;
      StringBodyReads(src, j, k, acc + [s[0]], s[1..]);
      StringBodyReadsOne(src, i, acc, s[0]);
    }
  }

  /** A double quote starts a string literal. */
  lemma QuoteStartsString(src: string, p: nat)
    requires p < |src| && src[p] == '"'
    ensures LexAt(src, p) == StringBody(src, p + 1, [])
  {
  }

  /** Any string, spelled between quotes, scans back to itself; the token
      is two characters longer than the spelled body. */
  lemma StringRoundTrip(src: string, p: nat, s: string)
    requires p + |Escape(s)| + 1 < |src| && src[p] == '"'
    requires src[p + 1..p + 1 + |Escape(s)|] == Escape(s) && src[p + 1 + |Escape(s)|] == '"'
    ensures LexAt(src, p) == Lexeme(String(s), p + |Escape(s)| + 2)
  {
    QuoteStartsString(src, p);
    StringBodyReads(src, p + 1, p + 1 + |Escape(s)|, [], s);
    assert [] + s == s;
  }

  /** A string body without errors: each unit is a character other than
      a quote, a backslash or a newline, or a backslash followed by one of
      the five escape letters. Raw tabs and carriage returns are allowed. */
  predicate GoodBody(b: string)
    decreases |b|
  {
    b == []
    || (b[0] != '"' && b[0] != '\\' && b[0] != '\n' && GoodBody(b[1..]))
    || (2 <= |b| && b[0] == '\\' && StringEscape(b[1]).Some? && GoodBody(b[2..]))
  }

  /** The characters an error-free body stands for. */
  function Decoded(b: string): string
    requires GoodBody(b)
    decreases |b|
  {
    if b == [] then []
    else if b[0] != '\\' then [b[0]] + Decoded(b[1..])
    else [StringEscape(b[1]).value] + Decoded(b[2..])
  }

  /** Every canonical spelling is an error-free body that decodes back. */
  lemma {:induction false} EscapeIsGood(s: string)
    ensures GoodBody(Escape(s)) && Decoded(Escape(s)) == s
    decreases s
  {
    if s != [] {
      var e, rest := StringSpelling(s[0]), Escape(s[1..]);
      EscapeIsGood(s[1..]);
      assert Escape(s) == e + rest;
      assert (e + rest)[|e|..] == rest;
      StringEscapesInvert(s[0], e[|e| - 1]);
      assert [s[0]] + s[1..] == s;
    }
  }

  /** Reading an error-free body from i up to k decodes it. */
  lemma {:induction false} GoodBodyReads(src: string, i: nat, k: nat, acc: string)
    requires i <= k <= |src| && GoodBody(src[i..k])
    ensures StringBody(src, i, acc) == StringBody(src, k, acc + Decoded(src[i..k]))
    decreases k - i
  {
    var b := src[i..k];
    if i == k {
      assert acc + Decoded(b) == acc;
    } else if src[i] != '\\' {
      assert b[0] == src[i] && b[1..] == src[i + 1..k];
      assert acc + Decoded(b) == acc + [src[i]] + Decoded(src[i + 1..k]);
      GoodBodyReads(src, i + 1, k, acc + [src[i]]);
    } else {
      assert b[0] == src[i] && b[1] == src[i + 1] && b[2..] == src[i + 2..k];
      var d := StringEscape(src[i + 1]).value;
      assert acc + Decoded(b) == acc + [d] + Decoded(src[i + 2..k]);
      GoodBodyReads(src, i + 2, k, acc + [d]);
    }
  }

  /** A backslash followed by anything but n, t, r, a backslash or a quote
      is an invalid escape of length 2, reported at the backslash. */
  lemma StringInvalidEscape(src: string, p: nat, k: nat)
    requires p < k && k + 1 < |src| && src[p] == '"' && GoodBody(src[p + 1..k])
    requires src[k] == '\\' && StringEscape(src[k + 1]) == None
    ensures LexAt(src, p) == Fault(InvalidEscapeSequence, k, 2, k + 2)
  {
    QuoteStartsString(src, p);
    GoodBodyReads(src, p + 1, k, []);
  }

  /** A string still open at the end of the input is unterminated,
      reported one column past the last character. */
  lemma StringUnterminatedAtEnd(src: string, p: nat)
    requires p < |src| && src[p] == '"' && GoodBody(src[p + 1..])
    ensures LexAt(src, p) == Fault(UnterminatedString, |src|, 1, |src|)
  {
    QuoteStartsString(src, p);
    assert src[p + 1..] == src[p + 1..|src|];
    GoodBodyReads(src, p + 1, |src|, []);
  }

  /** So is one that ends in a backslash with nothing after it. */
  lemma StringUnterminatedAfterBackslash(src: string, p: nat)
    requires p + 1 < |src| && src[p] == '"' && GoodBody(src[p + 1..|src| - 1])
    requires src[|src| - 1] == '\\'
    ensures LexAt(src, p) == Fault(UnterminatedString, |src|, 1, |src|)
  {
    QuoteStartsString(src, p);
    GoodBodyReads(src, p + 1, |src| - 1, []);
  }

  /** A newline inside a string ends it unterminated, reported at the newline. */
  lemma StringUnterminatedAtNewline(src: string, p: nat, k: nat)
    requires p < k < |src| && src[p] == '"' && GoodBody(src[p + 1..k]) && src[k] == '\n'
    ensures LexAt(src, p) == Fault(UnterminatedString, k, 1, k + 1)
  {
    QuoteStartsString(src, p);
    GoodBodyReads(src, p + 1, k, []);
  }

  /** Any error-free body between quotes, raw tabs and carriage returns
      included, scans to the string it decodes to. */
  lemma StringAnyBody(src: string, p: nat, k: nat)
    requires p < k < |src| && src[p] == '"' && GoodBody(src[p + 1..k]) && src[k] == '"'
    ensures LexAt(src, p) == Lexeme(String(Decoded(src[p + 1..k])), k + 1)
  {
    QuoteStartsString(src, p);
    GoodBodyReads(src, p + 1, k, []);
    assert [] + Decoded(src[p + 1..k]) == Decoded(src[p + 1..k]);
  }

  // --------------------------------------------------------------- characters

  /** How a character literal spells a character. */
  function CharSpelling(c: char): string
  {
    match CharEscapeLetter(c)
    case Some(x) => ['\\', x]
    case None => [c]
  }

  /** The letter after the backslash that spells c, for the five characters
      a character literal escapes. */
  function CharEscapeLetter(c: char): (x: Option<char>)
  {
    match c
    case '\n' => Some('n')
    case '\t' => Some('t')
    case '\r' => Some('r')
    case '\\' => Some('\\')
    case '\'' => Some('\'')
    case _ => None
  }

  /** The character escapes are exactly the inverse of how character
      literals spell the escapable characters. */
  lemma CharEscapesInvert(c: char, x: char)
    ensures CharEscape(x) == Some(c) <==> CharEscapeLetter(c) == Some(x)
  {
  }

  /** Any character, spelled between single quotes, scans back to itself:
      three characters for a plain body, four for an escape. */
  lemma CharRoundTrip(src: string, p: nat, c: char)
    requires p + |CharSpelling(c)| + 1 < |src| && src[p] == '\''
    requires src[p + 1..p + 1 + |CharSpelling(c)|] == CharSpelling(c)
    requires src[p + 1 + |CharSpelling(c)|] == '\''
    ensures LexAt(src, p) == Lexeme(Char(c), p + |CharSpelling(c)| + 2)
    ensures |CharSpelling(c)| + 2 == if src[p + 1] == '\\' then 4 else 3
  {
    var e := CharSpelling(c);
    assert src[p + 1] == e[0];
    if |e| == 2 {
      assert src[p + 2] == e[1];
    }
  }

  /** The error cases of a character literal whose opening quote is at p. */
  lemma CharErrors(src: string, p: nat)
    requires p < |src| && src[p] == '\''
    ensures p + 1 == |src| ==> LexAt(src, p) == Fault(UnterminatedCharacter, p + 1, 1, p + 1)
    ensures p + 1 < |src| && src[p + 1] == '\'' ==> LexAt(src, p) == Fault(EmptyCharacter, p, 2, p + 2)
    ensures p + 1 < |src| && src[p + 1] == '\n' ==> LexAt(src, p) == Fault(UnterminatedCharacter, p + 1, 1, p + 2)
    ensures p + 2 == |src| && src[p + 1] == '\\' ==> LexAt(src, p) == Fault(UnterminatedCharacter, p + 1, 1, p + 2)
    ensures p + 2 < |src| && src[p + 1] == '\\' && CharEscape(src[p + 2]) == None ==>
      LexAt(src, p) == Fault(InvalidEscapeSequence, p + 1, 2, p + 3)
  {
  }

  /** Any body other than a backslash, a quote or a newline, raw tabs and
      carriage returns included, between single quotes is that character,
      three characters long. */
  lemma CharPlainAny(src: string, p: nat)
    requires p + 2 < |src| && src[p] == '\'' && src[p + 2] == '\''
    requires src[p + 1] != '\\' && src[p + 1] != '\'' && src[p + 1] != '\n'
    ensures LexAt(src, p) == Lexeme(Char(src[p + 1]), p + 3)
  {
  }

  /** A valid escape not followed by the closing quote is unterminated,
      reported where the quote should be. */
  lemma CharEscapeUnclosed(src: string, p: nat)
    requires p + 2 < |src| && src[p] == '\'' && src[p + 1] == '\\' && CharEscape(src[p + 2]).Some?
    ensures p + 3 == |src| ==> LexAt(src, p) == Fault(UnterminatedCharacter, p + 3, 1, p + 3)
    ensures p + 3 < |src| && src[p + 3] != '\'' ==> LexAt(src, p) == Fault(UnterminatedCharacter, p + 3, 1, p + 4)
  {
  }

  /** A plain body not followed by the closing quote is unterminated,
      reported where the quote should be. */
  lemma CharUnclosed(src: string, p: nat)
    requires p + 1 < |src| && src[p] == '\''
    requires src[p + 1] != '\\' && src[p + 1] != '\'' && src[p + 1] != '\n'
    ensures p + 2 == |src| ==> LexAt(src, p) == Fault(UnterminatedCharacter, p + 2, 1, p + 2)
    ensures p + 2 < |src| && src[p + 2] != '\'' ==> LexAt(src, p) == Fault(UnterminatedCharacter, p + 2, 1, p + 3)
  {
  }

  // -------------------------------------------------------------- identifiers

  lemma {:induction false} WordEndOfRun(src: string, i: nat, j: nat)
    requires i <= j <= |src|
    requires forall k | i <= k < j :: IsWordChar(src[k])
    requires j < |src| ==> !IsWordChar(src[j])
    ensures WordEnd(src, i) == j
    decreases j - i
  {
    if i < j {
      WordEndOfRun(src, i + 1, j);
    }
  }

  /** A word that starts with a letter or underscore, and is not followed
      by another word character, is scanned whole: as its keyword kind if it
      is reserved, as an identifier naming it otherwise. */
  lemma WordToken(src: string, p: nat, w: string)
    requires 1 <= |w| && IsWordStart(w[0]) && forall k | 0 <= k < |w| :: IsWordChar(w[k])
    requires p + |w| <= |src| && src[p..p + |w|] == w
    requires p + |w| < |src| ==> !IsWordChar(src[p + |w|])
    ensures LexAt(src, p) == Lexeme(if Keyword(w).Some? then Keyword(w).value else Identifier(w), p + |w|)
  {
    assert src[p] == w[0];
    forall k | p + 1 <= k < p + |w| ensures IsWordChar(src[k]) {
      assert src[k] == w[k - p];
    }
    WordEndOfRun(src, p + 1, p + |w|);
  }

  /** Exactly eighteen spellings are reserved; `true` and `false` are the
      two boolean literals. */
  lemma ReservedSpellings(w: string)
    ensures Keyword(w).Some? <==> w in {"true", "false", "null", "and", "or", "not", "if", "then", "else",
                                      "for", "in", "do", "loop", "match", "let", "const", "fn", "return"}
    ensures Keyword("true") == Some(Bool(true)) && Keyword("false") == Some(Bool(false))
  {
  }


  // ----------------------------------------------------------------- examples

  /** A string with an escaped newline decodes to three characters in a
      six-character token. */
  lemma EscapedNewlineExample()
    ensures LexAt("\"a\\nb\"", 0) == Lexeme(String("a\nb"), 6)
  {
    assert Escape("a\nb") == "a\\nb";
    StringRoundTrip("\"a\\nb\"", 0, "a\nb");
  }

  /** A raw tab is a plain string character, and a bad escape after it is
      still reported at its backslash. */
  lemma RawTabExample()
    ensures LexAt("\"\t\"", 0) == Lexeme(String("\t"), 3)
    ensures LexAt("\"\t\\q\"", 0) == Fault(InvalidEscapeSequence, 2, 2, 4)
  {
    var ok, bad := "\"\t\"", "\"\t\\q\"";
    assert ok[1..2] == "\t" && bad[1..2] == "\t";
    assert GoodBody("\t") && Decoded("\t") == "\t" by {
      assert "\t"[1..] == [];
    }
    StringAnyBody(ok, 0, 2);
    StringInvalidEscape(bad, 0, 2);
  }

  /** 'a' is a three-character token and '\n' a four-character one. */
  lemma CharExamples()
    ensures LexAt("'a'", 0) == Lexeme(Char('a'), 3)
    ensures LexAt("'\\n'", 0) == Lexeme(Char('\n'), 4)
  {
    CharRoundTrip("'a'", 0, 'a');
    CharRoundTrip("'\\n'", 0, '\n');
  }
}
