/** What the scanner promises about the tokens it produces: where each token
    is reported, which bytes each kind of token covers, and how it behaves at
    the end of input. */
module LexerFacts {
  import opened Basics
  import opened Token
  import opened Lexer

  // ---------------------------------------------------------------------
  // Line and column bookkeeping

  /** The number of newlines at positions 0 through p. */
  function Newlines(input: Bytes, p: nat): nat
    decreases p
  {
    var here := if ByteAt(input, p) == '\n' then 1 else 0;
    if p == 0 then here else Newlines(input, p - 1) + here
  }

  /** The position of the last newline at or before p, or -1 if there is
      none. */
  function LastNewline(input: Bytes, p: nat): (q: int)
    ensures -1 <= q <= p
    ensures q >= 0 ==> ByteAt(input, q) == '\n'
    decreases p
  {
    if ByteAt(input, p) == '\n' then p
    else if p == 0 then -1
    else LastNewline(input, p - 1)
  }

  /** The scanner's line and column agree with its position: the line is one
      more than the newlines read so far, and the column is the distance from
      the last newline read (0 on a newline itself). */
  predicate Tracks(l: Lexer) {
    l.line == 1 + Newlines(l.input, l.position) &&
    l.column == l.position - LastNewline(l.input, l.position)
  }

  lemma NewTracks(input: Bytes)
    ensures Tracks(New(input))
  {
  }

  lemma ReadCharTracks(l: Lexer)
    requires Tracks(l)
    ensures Tracks(ReadChar(l))
  {
  }

  lemma {:induction false} AdvanceTracks(l: Lexer, n: nat)
    requires Tracks(l)
    ensures Tracks(Advance(l, n))
    decreases n
  {
    if n > 0 {
      ReadCharTracks(l);
      AdvanceTracks(ReadChar(l), n - 1);
    }
  }

  /** Skipping whitespace and comments keeps the bookkeeping right. */
  lemma StartTracks(l: Lexer)
    requires Tracks(l)
    ensures Tracks(TokenStart(l))
  {
    TokenStartReads(l);
    AdvanceTracks(l, TokenStart(l).position - l.position);
  }

  /** Scanning a token keeps the bookkeeping right. */
  lemma TokenAtTracks(w: Lexer)
    requires Tracks(w)
    ensures Tracks(TokenAt(w).rest)
  {
    TokenAtReads(w);
    AdvanceTracks(w, TokenAt(w).rest.position - w.position);
  }

  /** A token is reported at the line and column of its first byte, and the
      scanner still tracks its position afterwards. */
  lemma TokenPosition(l: Lexer)
    requires Tracks(l)
    ensures var p, s := TokenStart(l).position, NextToken(l);
      s.tok.line == 1 + Newlines(l.input, p) &&
      s.tok.column == p - LastNewline(l.input, p) &&
      Tracks(s.rest)
  {
    var w := TokenStart(l);
    StartTracks(l);
    TokenAtTracks(w);
    assert NextToken(l) == TokenAt(w);
  }

  /** The first byte of a line is in column 1. */
  lemma LineStartColumn(input: Bytes, p: nat)
    requires 0 < p && ByteAt(input, p - 1) == '\n' && ByteAt(input, p) != '\n'
    ensures p - LastNewline(input, p) == 1
  {
  }

  /** A NEWLINE token carries the newline as its literal and reports column
      0 of the line that the newline begins. */
  lemma NewlineToken(w: Lexer)
    requires Tracks(w) && Ch(w) == '\n'
    ensures TokenAt(w).tok == Token(NEWLINE, "\n", 1 + Newlines(w.input, w.position), 0)
  {
    assert SymbolAt(Ch(w), PeekChar(w)) == Symbol(NEWLINE, "\n", 1);
  }

  // ---------------------------------------------------------------------
  // Operators and delimiters

  /** The two-byte operators. */
  const TwoByteOps: map<Bytes, TokenType> := map[
    "==" := EQ, "!=" := NEQ, "<=" := LTE, ">=" := GTE, "&&" := AND, "||" := OR
  ]

  /** The one-byte operators and delimiters, and the newline. */
  const OneByteOps: map<byte, TokenType> := map[
    '=' := ASSIGN, '+' := PLUS, '-' := MINUS, '*' := ASTERISK, '/' := SLASH,
    '%' := MODULO, '!' := BANG, '<' := LT, '>' := GT,
    ',' := COMMA, ';' := SEMICOLON, ':' := COLON,
    '(' := LPAREN, ')' := RPAREN, '{' := LBRACE, '}' := RBRACE,
    '[' := LBRACKET, ']' := RBRACKET, '\n' := NEWLINE
  ]

  /** A byte that starts neither a string, an identifier, a number, a
      comment, whitespace nor the end of input. */
  predicate SymbolStart(c: byte) {
    c != '"' && !IsLetter(c) && !IsDigit(c) && c != NUL && c != '#' && !IsSpace(c)
  }

  /** The operator switch is longest match against the tables: a two-byte
      operator wins over its one-byte prefix, and a byte in neither table (a
      lone `&` or `|` among them) is ILLEGAL with the byte's UTF-8 text as
      literal. */
  lemma SymbolTable(c: byte, next: byte)
    requires SymbolStart(c)
    ensures var two, sym := [c, next], SymbolAt(c, next);
      (two in TwoByteOps ==> sym == Symbol(TwoByteOps[two], two, 2)) &&
      (two !in TwoByteOps && c in OneByteOps ==> sym == Symbol(OneByteOps[c], [c], 1)) &&
      (two !in TwoByteOps && c !in OneByteOps ==> sym == Symbol(ILLEGAL, RuneString(c), 1))
  {
    var two := [c, next];
    if c in "=!<>&|" {
      if next == (if c == '&' then '&' else if c == '|' then '|' else '=') {
        assert two in TwoByteOps;
      } else {
        assert two !in TwoByteOps by {
          assert forall t :: t in TwoByteOps ==> t[1] == (if t[0] == '&' then '&' else if t[0] == '|' then '|' else '=');
        }
      }
    } else {
      assert two !in TwoByteOps by {
        assert forall t :: t in TwoByteOps ==> t[0] in "=!<>&|";
      }
    }
  }

  /** The token at a symbol byte is the table's token, covering one or two
      bytes. */
  lemma OperatorToken(w: Lexer)
    requires SymbolStart(Ch(w))
    ensures var c, s := Ch(w), TokenAt(w);
      var sym := SymbolAt(c, PeekChar(w));
      s.tok.kind == sym.kind && s.tok.literal == sym.literal && s.rest == Advance(w, sym.width)
  {
    var sym := SymbolAt(Ch(w), PeekChar(w));
    assert sym.width == 1 || sym.width == 2;
  }

  /** A minus sign is always a token of its own, so "-5" is MINUS then INT. */
  lemma MinusIsSeparate(w: Lexer)
    requires Ch(w) == '-'
    ensures TokenAt(w).tok.kind == MINUS && TokenAt(w).tok.literal == "-"
    ensures Ch(TokenAt(w).rest) == PeekChar(w)
  {
  }

  // ---------------------------------------------------------------------
  // Identifiers, numbers, strings and comments

  /** An identifier token is the maximal run of letters, digits and
      underscores starting at a letter, classified by the keyword table. */
  lemma IdentifierAt(w: Lexer)
    requires IsLetter(Ch(w))
    ensures var p, s := w.position, TokenAt(w);
      var e := s.rest.position;
      p < e <= |w.input| &&
      s.tok.literal == w.input[p..e] &&
      s.tok.kind == LookupIdent(s.tok.literal) &&
      (forall i :: p <= i < e ==> IsIdentByte(w.input[i])) &&
      (e == |w.input| || !IsIdentByte(w.input[e]))
  {
    var r := ReadIdentifier(w);
    assert TokenAt(w) == Scan(Token(LookupIdent(r.text), r.text, w.line, w.column), r.rest);
    assert forall i :: w.position <= i < r.rest.position ==> w.input[i] == r.text[i - w.position];
  }

  /** A number token is the maximal run of digits, and it is an INT. */
  lemma NumberAt(w: Lexer)
    requires IsDigit(Ch(w))
    ensures var p, s := w.position, TokenAt(w);
      var e := s.rest.position;
      p < e <= |w.input| &&
      s.tok.kind == INT && s.tok.literal == w.input[p..e] &&
      (forall i :: p <= i < e ==> IsDigit(w.input[i])) &&
      (e == |w.input| || !IsDigit(w.input[e]))
  {
    var r := ReadNumber(w);
    assert TokenAt(w) == Scan(Token(INT, r.text, w.line, w.column), r.rest);
    assert forall i :: w.position <= i < r.rest.position ==> w.input[i] == r.text[i - w.position];
  }

  /** A string token's literal is exactly the bytes between the quotes. It
      ends at the first quote not escaped by a backslash, or runs to the end
      marker when there is no such quote. */
  lemma StringAt(w: Lexer)
    requires Ch(w) == '"'
    ensures var p, s := w.position, TokenAt(w);
      var e := s.rest.position - 1;
      p < e <= |w.input| &&
      s.tok.kind == STRING && s.tok.literal == w.input[p + 1..e] &&
      (ByteAt(w.input, e) == '"' || ByteAt(w.input, e) == NUL) &&
      StringBody(s.tok.literal, ByteAt(w.input, e) == '"')
  {
    StringScanReads(w);
  }

  /** Inside a string body every quote is escaped by the byte before it. */
  lemma {:induction false} BodyQuotesEscaped(s: Bytes, closed: bool, i: nat)
    requires StringBody(s, closed) && i < |s| && s[i] == '"'
    ensures 0 < i && s[i - 1] == '\\'
    decreases |s|
  {
    if s[0] == '\\' {
      if i >= 2 {
        BodyQuotesEscaped(s[2..], closed, i - 2);
      }
    } else {
      BodyQuotesEscaped(s[1..], closed, i - 1);
    }
  }

  /** A comment runs up to the next newline. */
  lemma CommentEnd(w: Lexer, q: nat)
    requires w.position <= q < |w.input| && w.input[q] == '\n'
    requires forall k :: w.position <= k < q ==> InComment(w.input[k])
    ensures SkipComment(w).position == q
  {
  }

  /** A comment ends at the next newline without consuming it, so the token
      after a comment that ends a line is that line's NEWLINE. */
  lemma CommentKeepsNewline(w: Lexer, q: nat)
    requires Ch(w) == '#' && w.position < q < |w.input| && w.input[q] == '\n'
    requires forall k :: w.position < k < q ==> InComment(w.input[k])
    ensures TokenStart(w) == SkipComment(w) && SkipComment(w).position == q
    ensures NextToken(w).tok.kind == NEWLINE && NextToken(w).rest.position == q + 1
  {
    CommentEnd(w, q);
    var r := SkipComment(w);
    assert SkipWhitespace(w) == w;
    assert SkipWhitespace(r) == r;
    assert TokenStart(w) == r;
    assert SymbolAt(Ch(r), PeekChar(r)) == Symbol(NEWLINE, "\n", 1);
    assert NextToken(w) == TokenAt(r);
  }

  // ---------------------------------------------------------------------
  // End of input

  /** The first n tokens from l. */
  function Tokens(l: Lexer, n: nat): (ts: seq<Token>)
    ensures |ts| == n
    decreases n
  {
    if n == 0 then [] else [NextToken(l).tok] + Tokens(NextToken(l).rest, n - 1)
  }

  /** At the end marker the token is EOF with an empty literal. */
  lemma EndOfInputToken(l: Lexer)
    requires Ch(TokenStart(l)) == NUL
    ensures NextToken(l).tok.kind == EOF && NextToken(l).tok.literal == ""
  {
  }

  /** Once the whole input has been read, every further token is EOF. */
  lemma {:induction false} EofForever(l: Lexer, n: nat)
    requires l.position >= |l.input|
    ensures forall i :: 0 <= i < n ==> Tokens(l, n)[i] == Token(EOF, "", Tokens(l, n)[i].line, Tokens(l, n)[i].column)
    decreases n
  {
    if n > 0 {
      EofForever(NextToken(l).rest, n - 1);
    }
  }
}
