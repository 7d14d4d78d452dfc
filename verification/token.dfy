/** The token vocabulary of the scanner and the keyword table that turns an
    identifier's text into its token type. */
module Token {
  import opened Basics

  datatype TokenType =
    // special
    | ILLEGAL | EOF
    // identifiers and literals
    | IDENT | INT | STRING
    // operators
    | ASSIGN | PLUS | MINUS | ASTERISK | SLASH | MODULO | BANG
    | LT | GT | LTE | GTE | EQ | NEQ | AND | OR
    // delimiters
    | COMMA | SEMICOLON | COLON | NEWLINE
    | LPAREN | RPAREN | LBRACE | RBRACE | LBRACKET | RBRACKET
    // keywords
    | GAWE | TETEP | YEN | NENG | SALAMA | KANGGO | PUNGSI | BALIK
    // boolean and null literals
    | BENER | SALAH | KOSONG

  /** A token: its type, its source text, and the line and column of its
      first byte. */
  datatype Token = Token(kind: TokenType, literal: Bytes, line: int, column: int)

  /** The eleven reserved words and the token types they stand for. The
      built-in names tulis and tanya are deliberately absent. */
  const Keywords: map<Bytes, TokenType> := map[
    "gawe" := GAWE,
    "tetep" := TETEP,
    "yen" := YEN,
    "neng" := NENG,
    "salama" := SALAMA,
    "kanggo" := KANGGO,
    "pungsi" := PUNGSI,
    "balik" := BALIK,
    "bener" := BENER,
    "salah" := SALAH,
    "kosong" := KOSONG
  ]

  /** The token types that a reserved word can produce. */
  predicate IsKeyword(t: TokenType) {
    t in {GAWE, TETEP, YEN, NENG, SALAMA, KANGGO, PUNGSI, BALIK, BENER, SALAH, KOSONG}
  }

  /** The reserved word of a keyword token type: the inverse of the table. */
  function KeywordText(t: TokenType): Bytes
    requires IsKeyword(t)
  {
    match t
    case GAWE => "gawe"
    case TETEP => "tetep"
    case YEN => "yen"
    case NENG => "neng"
    case SALAMA => "salama"
    case KANGGO => "kanggo"
    case PUNGSI => "pungsi"
    case BALIK => "balik"
    case BENER => "bener"
    case SALAH => "salah"
    case KOSONG => "kosong"
  }

  /** The type of an identifier-shaped word: its keyword type when the word
      is reserved (exact, case-sensitive match), IDENT otherwise. */
  function LookupIdent(ident: Bytes): (t: TokenType)
    ensures t == IDENT || IsKeyword(t)
    ensures IsKeyword(t) <==> ident in Keywords
    ensures IsKeyword(t) ==> ident == KeywordText(t)
  {
    if ident in Keywords then Keywords[ident] else IDENT
  }

  /** Every reserved word classifies as its own keyword type. */
  lemma LookupKeywordText(t: TokenType)
    requires IsKeyword(t)
    ensures LookupIdent(KeywordText(t)) == t
  {
  }

  /** The eleven words of the table, one by one. */
  lemma KeywordTable()
    ensures LookupIdent("gawe") == GAWE
    ensures LookupIdent("tetep") == TETEP
    ensures LookupIdent("yen") == YEN
    ensures LookupIdent("neng") == NENG
    ensures LookupIdent("salama") == SALAMA
    ensures LookupIdent("kanggo") == KANGGO
    ensures LookupIdent("pungsi") == PUNGSI
    ensures LookupIdent("balik") == BALIK
    ensures LookupIdent("bener") == BENER
    ensures LookupIdent("salah") == SALAH
    ensures LookupIdent("kosong") == KOSONG
  {
    LookupKeywordText(GAWE);
    LookupKeywordText(TETEP);
    LookupKeywordText(YEN);
    LookupKeywordText(NENG);
    LookupKeywordText(SALAMA);
    LookupKeywordText(KANGGO);
    LookupKeywordText(PUNGSI);
    LookupKeywordText(BALIK);
    LookupKeywordText(BENER);
    LookupKeywordText(SALAH);
    LookupKeywordText(KOSONG);
  }

  /** Matching is exact: capitalised keywords and the built-in names are
      ordinary identifiers. */
  lemma NonKeywords()
    ensures LookupIdent("Gawe") == IDENT
    ensures LookupIdent("GAWE") == IDENT
    ensures LookupIdent("tulis") == IDENT
    ensures LookupIdent("tanya") == IDENT
    ensures LookupIdent("") == IDENT
  {
  }

  /** Distinct reserved words have distinct token types. */
  lemma KeywordsInjective(a: Bytes, b: Bytes)
    requires a in Keywords && b in Keywords && a != b
    ensures LookupIdent(a) != LookupIdent(b)
  {
  }
}
