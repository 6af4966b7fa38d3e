/**
 * The token table: the closed set of token kinds, each with the string
 * constant the Go code gives it, and the keyword lookup for identifiers.
 */
module Token {
  /**
   * The kinds, named as in the Go constants. UNSET is Go's zero `TokenType`,
   * the empty string, which the lexer hands out for bytes it does not know.
   */
  datatype TokenType =
    | ILLEGAL | EOF
    | IDENT | INT
    | ASSIGN | PLUS | SUBS | DIV | MULT
    | COMMA | SEMICOLON | LPAREN | RPAREN | LBRACE | RBRACE
    | FUNCTION | LET | RET | CON | IF | ELSE | TRUE | FALSE
    | EQ | NOT | NEQ | LT | GT
    | UNSET

  datatype Token = Token(kind: TokenType, literal: string)

  /** The string value of each kind's constant. */
  function Name(t: TokenType): string {
    match t
    case ILLEGAL => "ILLEGAL"
    case EOF => "EOF"
    case IDENT => "IDENT"
    case INT => "INT"
    case ASSIGN => "="
    case PLUS => "+"
    case SUBS => "-"
    case DIV => "/"
    case MULT => "*"
    case COMMA => ","
    case SEMICOLON => ";"
    case LPAREN => "("
    case RPAREN => ")"
    case LBRACE => "{"
    case RBRACE => "}"
    case FUNCTION => "FUNCTION"
    case LET => "LET"
    case RET => "RETURN"
    case CON => "CONST"
    case IF => "IF"
    case ELSE => "ELSE"
    case TRUE => "TRUE"
    case FALSE => "FALSE"
    case EQ => "=="
    case NOT => "!"
    case NEQ => "!="
    case LT => "<"
    case GT => ">"
    case UNSET => ""
  }

  /** Distinct kinds have distinct strings. */
  lemma NameInjective(a: TokenType, b: TokenType)
    requires Name(a) == Name(b)
    ensures a == b
  {
    match a
    case ILLEGAL =>
    case EOF =>
    case IDENT =>
    case INT =>
    case ASSIGN =>
    case PLUS =>
    case SUBS =>
    case DIV =>
    case MULT =>
    case COMMA =>
    case SEMICOLON =>
    case LPAREN =>
    case RPAREN =>
    case LBRACE =>
    case RBRACE =>
    case FUNCTION =>
    case LET =>
    case RET =>
    case CON =>
    case IF =>
    case ELSE =>
    case TRUE =>
    case FALSE =>
    case EQ =>
    case NOT =>
    case NEQ =>
    case LT =>
    case GT =>
    case UNSET =>
  }

  predicate IsKeyword(t: TokenType) {
    t in {FUNCTION, LET, RET, CON, IF, ELSE, TRUE, FALSE}
  }

  /** The keyword table `keywords`. */
  const Keywords: map<string, TokenType> := map[
    "fn" := FUNCTION, "let" := LET, "return" := RET, "const" := CON,
    "if" := IF, "else" := ELSE, "true" := TRUE, "false" := FALSE]

  /** `LookupIdent`: a keyword's reserved kind, and IDENT for every other word. */
  function LookupIdent(ident: string): (t: TokenType)
    ensures t == IDENT || IsKeyword(t)
    ensures t == IDENT <==> ident !in Keywords
  {
    if ident in Keywords then Keywords[ident] else IDENT
  }

  /** The word that spells a keyword kind. */
  function KeywordText(t: TokenType): string
    requires IsKeyword(t)
  {
    match t
    case FUNCTION => "fn"
    case LET => "let"
    case RET => "return"
    case CON => "const"
    case IF => "if"
    case ELSE => "else"
    case TRUE => "true"
    case FALSE => "false"
  }

  /** Lookup and spelling are inverse: each keyword kind is found from its word, and any word found as a keyword is that kind's spelling. */
  lemma LookupIdentKeywords(t: TokenType, ident: string)
    ensures IsKeyword(t) ==> LookupIdent(KeywordText(t)) == t
    ensures LookupIdent(ident) != IDENT ==> ident == KeywordText(LookupIdent(ident))
  {
  }

  /** The lookup is exact and case-sensitive. */
  lemma LookupIdentCaseSensitive()
    ensures LookupIdent("let") == LET && LookupIdent("Let") == IDENT
    ensures LookupIdent("LET") == IDENT && LookupIdent("fn ") == IDENT
  {
    assert "Let" !in Keywords;
    assert "LET" !in Keywords;
    assert "fn " !in Keywords;
  }
}
