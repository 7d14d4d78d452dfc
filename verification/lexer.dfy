/** The byte-level scanner as a pure function over the scanner state
    (input, position, line, column). Each call of NextToken returns one token
    and the state after it. */
module Lexer {
  import opened Basics
  import opened Token

  /** Scanner state. The Go scanner also keeps readPosition, which is always
      position + 1, and ch, which is always the byte at position (0 past the
      end); both are derived here by Ch and PeekChar. */
  datatype Lexer = Lexer(input: Bytes, position: nat, line: int, column: int)

  /** One token and the scanner state after it. */
  datatype Scan = Scan(tok: Token, rest: Lexer)

  /** Text read by a scanning helper and the state after it. */
  datatype Read = Read(text: Bytes, rest: Lexer)

  /** The byte at p, or 0 at and past the end of input. */
  function ByteAt(input: Bytes, p: nat): byte {
    if p < |input| then input[p] else NUL
  }

  /** The byte under examination (Go's `ch`). */
  function Ch(l: Lexer): byte {
    ByteAt(l.input, l.position)
  }

  /** The byte after the current one, without moving. */
  function PeekChar(l: Lexer): byte {
    ByteAt(l.input, l.position + 1)
  }

  /** Makes p the current position and does the line and column
      bookkeeping for the byte found there: a newline starts the next line at
      column 0, anything else (also the 0 read past the end) adds a column. */
  function Enter(input: Bytes, p: nat, line: int, column: int): Lexer {
    if ByteAt(input, p) == '\n' then Lexer(input, p, line + 1, 0)
    else Lexer(input, p, line, column + 1)
  }

  /** A scanner at the start of input: line 1, column 0, then one read. */
  function New(input: Bytes): Lexer {
    Enter(input, 0, 1, 0)
  }

  /** Moves to the next byte. */
  function ReadChar(l: Lexer): Lexer {
    Enter(l.input, l.position + 1, l.line, l.column)
  }

  /** The state after n reads. */
  function Advance(l: Lexer, n: nat): Lexer
    decreases n
  {
    if n == 0 then l else Advance(ReadChar(l), n - 1)
  }

  /** Bytes of input not yet under examination: the termination measure. */
  function Remaining(l: Lexer): nat {
    if l.position < |l.input| then |l.input| - l.position else 0
  }

  predicate IsSpace(c: byte) {
    c == ' ' || c == '\t' || c == '\r'
  }

  predicate IsLetter(c: byte) {
    ('a' <= c <= 'z') || ('A' <= c <= 'Z') || c == '_'
  }

  predicate IsDigit(c: byte) {
    '0' <= c <= '9'
  }

  predicate IsIdentByte(c: byte) {
    IsLetter(c) || IsDigit(c) || c == '_'
  }

  predicate InComment(c: byte) {
    c != '\n' && c != NUL
  }

  /** The byte classes the scanner's skipping loops run over. */
  datatype Run = Spaces | CommentText | IdentBytes | Digits

  predicate Keeps(run: Run, c: byte) {
    match run
    case Spaces => IsSpace(c)
    case CommentText => InComment(c)
    case IdentBytes => IsIdentByte(c)
    case Digits => IsDigit(c)
  }

  /** Reading one more byte after n reads is reading n + 1 bytes. */
  lemma AdvanceStep(l: Lexer, n: nat)
    requires n > 0
    ensures Advance(l, n) == Advance(ReadChar(l), n - 1)
  {
  }

  /** Reads while the current byte belongs to the run: the loop shape shared
      by skipWhitespace, skipComment, readIdentifier and readNumber. It stops
      at the first byte outside the run, at the latest at the end of input,
      since no run contains the end marker 0. */
  function Span(l: Lexer, run: Run): (r: Lexer)
    ensures r.input == l.input && l.position <= r.position
    ensures l.position <= |l.input| ==> r.position <= |l.input|
    ensures r == Advance(l, r.position - l.position)
    ensures !Keeps(run, Ch(r))
    ensures forall k :: l.position <= k < r.position ==> k < |l.input| && Keeps(run, l.input[k])
    decreases Remaining(l)
  {
    if Keeps(run, Ch(l)) then
      assert l.position < |l.input| && Keeps(run, l.input[l.position]);
      var r := Span(ReadChar(l), run);
      AdvanceStep(l, r.position - l.position);
      r
    else
      l
  }

  /** Skips spaces, tabs and carriage returns, but not newlines. */
  function SkipWhitespace(l: Lexer): (r: Lexer)
    ensures r.input == l.input && l.position <= r.position
    ensures r == Advance(l, r.position - l.position)
    ensures !IsSpace(Ch(r))
    ensures forall k :: l.position <= k < r.position ==> k < |l.input| && IsSpace(l.input[k])
  {
    Span(l, Spaces)
  }

  /** Skips the rest of a `#` comment, stopping at the newline (which is not
      consumed) or at the end of input. */
  function SkipComment(l: Lexer): (r: Lexer)
    ensures r.input == l.input && l.position <= r.position
    ensures r == Advance(l, r.position - l.position)
    ensures Ch(r) == '\n' || Ch(r) == NUL
    ensures forall k :: l.position <= k < r.position ==> k < |l.input| && InComment(l.input[k])
  {
    Span(l, CommentText)
  }

  /** The maximal run of letters, digits and underscores from the current
      byte on. */
  function ReadIdentifier(l: Lexer): (r: Read)
    requires l.position <= |l.input|
    ensures l.position <= r.rest.position <= |l.input|
    ensures r.rest == Advance(l, r.rest.position - l.position)
    ensures r.text == l.input[l.position..r.rest.position]
    ensures forall i :: 0 <= i < |r.text| ==> IsIdentByte(r.text[i])
    ensures r.rest.position == |l.input| || !IsIdentByte(l.input[r.rest.position])
  {
    var e := Span(l, IdentBytes);
    Read(l.input[l.position..e.position], e)
  }

  /** The maximal run of ASCII digits from the current byte on. */
  function ReadNumber(l: Lexer): (r: Read)
    requires l.position <= |l.input|
    ensures l.position <= r.rest.position <= |l.input|
    ensures r.rest == Advance(l, r.rest.position - l.position)
    ensures r.text == l.input[l.position..r.rest.position]
    ensures forall i :: 0 <= i < |r.text| ==> IsDigit(r.text[i])
    ensures r.rest.position == |l.input| || !IsDigit(l.input[r.rest.position])
  {
    var e := Span(l, Digits);
    Read(l.input[l.position..e.position], e)
  }

  /** The bytes of a string literal between its quotes. A backslash takes the
      next byte with it, so an escaped quote does not close the string; a
      lone backslash can only end a string that runs to the end of input
      (closed is false), since before a quote it would escape that quote. */
  predicate StringBody(s: Bytes, closed: bool)
    decreases |s|
  {
    if s == [] then true
    else if s[0] == '\\' then
      (|s| == 1 && !closed) || (|s| >= 2 && s[1] != NUL && StringBody(s[2..], closed))
    else
      s[0] != '"' && s[0] != NUL && StringBody(s[1..], closed)
  }

  /** A plain byte in front of a string body extends it. */
  lemma BodyPlain(input: Bytes, a: nat, e: nat, closed: bool)
    requires a < e <= |input|
    requires input[a] != '\\' && input[a] != '"' && input[a] != NUL
    requires StringBody(input[a + 1..e], closed)
    ensures StringBody(input[a..e], closed)
  {
    assert input[a..e][1..] == input[a + 1..e];
  }

  /** An escape pair in front of a string body extends it. */
  lemma BodyEscape(input: Bytes, a: nat, e: nat, closed: bool)
    requires a + 2 <= e <= |input|
    requires input[a] == '\\' && input[a + 1] != NUL
    requires StringBody(input[a + 2..e], closed)
    ensures StringBody(input[a..e], closed)
  {
    assert input[a..e][2..] == input[a + 2..e];
  }

  /** The loop of readString: from the opening quote (or an escaped byte),
      reads until a quote or the end marker becomes the current byte. A
      backslash followed by anything but the end marker is read together
      with that byte. */
  function StringScan(l: Lexer): (r: Lexer)
    requires l.position < |l.input|
    ensures r.input == l.input && l.position < r.position <= |l.input|
    ensures Ch(r) == '"' || Ch(r) == NUL
    decreases Remaining(l)
  {
    var m := ReadChar(l);
    if Ch(m) == '"' || Ch(m) == NUL then m
    else if Ch(m) == '\\' && PeekChar(m) != NUL then StringScan(ReadChar(m))
    else StringScan(m)
  }

  /** The string loop from l reaches its stop by plain reads, passing a
      well-formed string body that is closed when it stopped at a quote. */
  predicate ScanReads(l: Lexer)
    requires l.position < |l.input|
  {
    var r := StringScan(l);
    r == Advance(l, r.position - l.position) &&
    StringBody(l.input[l.position + 1..r.position], Ch(r) == '"')
  }

  /** What the string loop reads: exactly the bytes of a well-formed string
      body, closed when it stopped at a quote; its end state is reached by
      plain reads. */
  lemma {:induction false} StringScanReads(l: Lexer)
    requires l.position < |l.input|
    ensures var r := StringScan(l);
      r == Advance(l, r.position - l.position) &&
      StringBody(l.input[l.position + 1..r.position], Ch(r) == '"')
    decreases Remaining(l)
  {
    var m := ReadChar(l);
    if Ch(m) == '"' || Ch(m) == NUL {
      assert StringScan(l) == m;
    } else if Ch(m) == '\\' && PeekChar(m) != NUL {
      StringScanReads(ReadChar(m));
      ScanEscapeStep(l);
    } else if Ch(m) == '\\' {
      ScanLoneBackslash(l);
    } else {
      StringScanReads(m);
      ScanPlainStep(l);
    }
    assert ScanReads(l);
  }

  /** An escape pair read in one step of the string loop. */
  lemma ScanEscapeStep(l: Lexer)
    requires l.position < |l.input|
    requires Ch(ReadChar(l)) == '\\' && PeekChar(ReadChar(l)) != NUL
    requires ScanReads(ReadChar(ReadChar(l)))
    ensures ScanReads(l)
  {
    var m := ReadChar(l);
    var n := ReadChar(m);
    var r := StringScan(l);
    assert r == StringScan(n);
    assert n.input == l.input && n.position == l.position + 2 < |l.input|;
    assert r == Advance(n, r.position - n.position);
    assert StringBody(l.input[n.position + 1..r.position], Ch(r) == '"');
    AdvanceStep(l, r.position - l.position);
    AdvanceStep(m, r.position - m.position);
    assert l.input[l.position + 1] == Ch(m) && l.input[l.position + 2] == PeekChar(m);
    BodyEscape(l.input, l.position + 1, r.position, Ch(r) == '"');
  }

  /** A backslash in front of the end marker ends the string loop. */
  lemma ScanLoneBackslash(l: Lexer)
    requires l.position < |l.input|
    requires Ch(ReadChar(l)) == '\\' && PeekChar(ReadChar(l)) == NUL
    ensures ScanReads(l)
  {
    var m := ReadChar(l);
    var r := StringScan(l);
    assert r == StringScan(m);
    assert Ch(ReadChar(m)) == NUL;
    assert r == ReadChar(m);
    AdvanceStep(l, r.position - l.position);
    assert l.input[l.position + 1..r.position] == ['\\'];
  }

  /** A plain byte read in one step of the string loop. */
  lemma ScanPlainStep(l: Lexer)
    requires l.position < |l.input|
    requires Ch(ReadChar(l)) != '"' && Ch(ReadChar(l)) != NUL && Ch(ReadChar(l)) != '\\'
    requires ScanReads(ReadChar(l))
    ensures ScanReads(l)
  {
    var m := ReadChar(l);
    var r := StringScan(l);
    assert r == StringScan(m);
    assert m.input == l.input && m.position == l.position + 1 < |l.input|;
    assert r == Advance(m, r.position - m.position);
    assert StringBody(l.input[m.position + 1..r.position], Ch(r) == '"');
    AdvanceStep(l, r.position - l.position);
    assert l.input[l.position + 1] == Ch(m);
    BodyPlain(l.input, l.position + 1, r.position, Ch(r) == '"');
  }

  /** A string literal whose opening quote is the current byte: the bytes
      up to the closing quote or the end of input, and the state after the
      closing quote (one read past the end marker when unterminated). */
  function ReadString(l: Lexer): (r: Read)
    requires l.position < |l.input|
    ensures r.rest.input == l.input
    ensures l.position + 1 <= r.rest.position - 1 <= |l.input|
    ensures r.text == l.input[l.position + 1..r.rest.position - 1]
  {
    var e := StringScan(l);
    Read(l.input[l.position + 1..e.position], ReadChar(e))
  }

  /** Go's string(b) for a byte b: the UTF-8 encoding of the code point b,
      one byte below 0x80 and two bytes from 0x80 on. */
  function RuneString(c: byte): (s: Bytes)
    ensures c as int < 0x80 ==> s == [c]
    ensures c as int >= 0x80 ==>
      |s| == 2 && 0xC2 <= s[0] as int <= 0xC3 && 0x80 <= s[1] as int < 0xC0 &&
      (s[0] as int - 0xC0) * 64 + (s[1] as int - 0x80) == c as int
  {
    if c as int < 0x80 then [c]
    else [(0xC0 + c as int / 64) as char, (0x80 + c as int % 64) as char]
  }

  /** A one- or two-byte symbol token: its type, its literal, and how many
      bytes it covers. */
  datatype Symbol = Symbol(kind: TokenType, literal: Bytes, width: nat)

  /** The switch of NextToken for a current byte c that is not a letter,
      digit, quote, `#` or the end marker; next is the peeked byte. */
  function SymbolAt(c: byte, next: byte): Symbol {
    match c
    case '=' => if next == '=' then Symbol(EQ, "==", 2) else Symbol(ASSIGN, [c], 1)
    case '+' => Symbol(PLUS, [c], 1)
    case '-' => Symbol(MINUS, [c], 1)
    case '*' => Symbol(ASTERISK, [c], 1)
    case '/' => Symbol(SLASH, [c], 1)
    case '%' => Symbol(MODULO, [c], 1)
    case '!' => if next == '=' then Symbol(NEQ, "!=", 2) else Symbol(BANG, [c], 1)
    case '<' => if next == '=' then Symbol(LTE, "<=", 2) else Symbol(LT, [c], 1)
    case '>' => if next == '=' then Symbol(GTE, ">=", 2) else Symbol(GT, [c], 1)
    case '&' => if next == '&' then Symbol(AND, "&&", 2) else Symbol(ILLEGAL, [c], 1)
    case '|' => if next == '|' then Symbol(OR, "||", 2) else Symbol(ILLEGAL, [c], 1)
    case ',' => Symbol(COMMA, [c], 1)
    case ';' => Symbol(SEMICOLON, [c], 1)
    case ':' => Symbol(COLON, [c], 1)
    case '(' => Symbol(LPAREN, [c], 1)
    case ')' => Symbol(RPAREN, [c], 1)
    case '{' => Symbol(LBRACE, [c], 1)
    case '}' => Symbol(RBRACE, [c], 1)
    case '[' => Symbol(LBRACKET, [c], 1)
    case ']' => Symbol(RBRACKET, [c], 1)
    case '\n' => Symbol(NEWLINE, [c], 1)
    case _ => Symbol(ILLEGAL, RuneString(c), 1)
  }

  /** The token whose first byte is the current one, for a current byte that
      is neither whitespace nor `#`: the switch of NextToken. Strings,
      identifiers and numbers leave the scanner on the byte after them; every
      other token, EOF included, ends with one more read. */
  function TokenAt(w: Lexer): (s: Scan)
    ensures s.rest.input == w.input
    ensures w.position < s.rest.position
    ensures s.tok.line == w.line && s.tok.column == w.column
  {
    var c := Ch(w);
    if c == '"' then
      var r := ReadString(w);
      Scan(Token(STRING, r.text, w.line, w.column), r.rest)
    else if IsLetter(c) then
      var r := ReadIdentifier(w);
      Scan(Token(LookupIdent(r.text), r.text, w.line, w.column), r.rest)
    else if IsDigit(c) then
      var r := ReadNumber(w);
      Scan(Token(INT, r.text, w.line, w.column), r.rest)
    else if c == NUL then
      Scan(Token(EOF, "", w.line, w.column), ReadChar(w))
    else
      var sym := SymbolAt(c, PeekChar(w));
      var last := if sym.width == 2 then ReadChar(w) else w;
      Scan(Token(sym.kind, sym.literal, w.line, w.column), ReadChar(last))
  }

  /** The state NextToken has reached when it records the token's line and
      column: past the whitespace in front of the token and, after a `#`,
      past the comment and whatever whitespace and comments follow it. */
  function TokenStart(l: Lexer): (w: Lexer)
    ensures w.input == l.input && l.position <= w.position
    ensures !IsSpace(Ch(w)) && Ch(w) != '#'
    decreases Remaining(l)
  {
    var w := SkipWhitespace(l);
    if Ch(w) == '#' then TokenStart(SkipComment(w)) else w
  }

  /** The next token and the state after it: skip to the token's first byte,
      then scan it. Every call consumes at least one byte, also at and past
      the end of input. */
  function NextToken(l: Lexer): (s: Scan)
    ensures s.rest.input == l.input
    ensures l.position < s.rest.position
  {
    TokenAt(TokenStart(l))
  }

  /** Reading m bytes and then n more is reading m + n bytes. */
  lemma {:induction false} AdvanceAdds(l: Lexer, m: nat, n: nat)
    ensures Advance(Advance(l, m), n) == Advance(l, m + n)
    ensures Advance(l, m).input == l.input && Advance(l, m).position == l.position + m
    decreases m
  {
    if m > 0 {
      AdvanceAdds(ReadChar(l), m - 1, n);
    }
  }

  /** TokenStart is reached by plain reads. */
  lemma {:induction false} TokenStartReads(l: Lexer)
    ensures TokenStart(l) == Advance(l, TokenStart(l).position - l.position)
    decreases Remaining(l)
  {
    var w := SkipWhitespace(l);
    if Ch(w) == '#' {
      var k := SkipComment(w);
      var t := TokenStart(k);
      TokenStartReads(k);
      AdvanceAdds(w, k.position - w.position, t.position - k.position);
      AdvanceAdds(l, w.position - l.position, t.position - w.position);
    }
  }

  /** The state after a token is reached from the token's first byte by
      plain reads. */
  lemma TokenAtReads(w: Lexer)
    ensures TokenAt(w).rest == Advance(w, TokenAt(w).rest.position - w.position)
  {
    var c := Ch(w);
    var r := TokenAt(w).rest;
    if c == '"' {
      StringScanReads(w);
      var e := StringScan(w);
      AdvanceAdds(w, e.position - w.position, 1);
    } else if IsLetter(c) || IsDigit(c) {
    } else if c == NUL {
    } else if SymbolAt(c, PeekChar(w)).width == 2 {
      AdvanceAdds(w, 1, 1);
    }
  }

  /** The state after NextToken is reached by plain reads. */
  lemma NextTokenReads(l: Lexer)
    ensures NextToken(l).rest == Advance(l, NextToken(l).rest.position - l.position)
  {
    TokenStartReads(l);
    var w := TokenStart(l);
    TokenAtReads(w);
    var r := TokenAt(w).rest;
    var a, b := w.position - l.position, r.position - w.position;
    assert Advance(l, a) == w;
    assert Advance(w, b) == r;
    AdvanceAdds(l, a, b);
    assert a + b == r.position - l.position;
  }
}
