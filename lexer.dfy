/**
 * The lexer: a byte cursor over the input. Every NextToken call classifies
 * the byte under the cursor and moves the cursor on by exactly one byte. Only
 * eight punctuation bytes and the NUL byte (which also stands for the end of
 * the input) are recognised; any other byte yields the zero token.
 */
module Lexer {
  import opened Token

  newtype byte = x: int | 0 <= x < 256

  /** The byte `readChar` loads for a position: the input byte, or 0 past the end. */
  function ByteAt(input: seq<byte>, i: nat): byte {
    if i < |input| then input[i] else 0
  }

  /** The bytes that have a token kind of their own. */
  const Punctuation: set<byte> := {'=' as byte, ';' as byte, '(' as byte, ')' as byte,
                                   ',' as byte, '{' as byte, '}' as byte, '+' as byte}

  /** `newToken`: a token whose literal is the one character of the byte. */
  function NewToken(kind: TokenType, c: byte): (t: Token)
    ensures t.kind == kind && |t.literal| == 1 && t.literal[0] as int == c as int
  {
    Token(kind, [c as char])
  }

  /** The token NextToken produces for the byte under the cursor. */
  function TokenFor(c: byte): (t: Token)
    ensures t.kind == EOF <==> c == 0
    ensures t.kind == UNSET <==> c != 0 && c !in Punctuation
    ensures c in Punctuation ==> t.literal == [c as char] && Name(t.kind) == t.literal
    ensures c !in Punctuation ==> t.literal == ""
    ensures t.kind != ILLEGAL && t.kind != IDENT && t.kind != INT && !IsKeyword(t.kind)
  {
    if c == '=' as byte then NewToken(ASSIGN, c)
    else if c == ';' as byte then NewToken(SEMICOLON, c)
    else if c == '(' as byte then NewToken(LPAREN, c)
    else if c == ')' as byte then NewToken(RPAREN, c)
    else if c == ',' as byte then NewToken(COMMA, c)
    else if c == '{' as byte then NewToken(LBRACE, c)
    else if c == '}' as byte then NewToken(RBRACE, c)
    else if c == '+' as byte then NewToken(PLUS, c)
    else if c == 0 then Token(EOF, "")
    else Token(UNSET, "")
  }

  /** The token the k-th NextToken call returns on a fresh lexer over `input`. */
  function TokenAt(input: seq<byte>, k: nat): Token {
    TokenFor(ByteAt(input, k))
  }

  class Lexer {
    const input: seq<byte>
    var pos: nat
    var readPos: nat
    var ch: byte

    /** The cursor invariant every readChar re-establishes. */
    ghost predicate Valid()
      reads this
    {
      readPos == pos + 1 && ch == ByteAt(input, pos)
    }

    /** `New`: the cursor is on the first byte. */
    constructor New(input: seq<byte>)
      ensures Valid() && this.input == input
      ensures pos == 0 && readPos == 1
      ensures ch == if |input| > 0 then input[0] else 0
    {
      this.input := input;
      pos, readPos := 0, 0;
      ch := 0;
      new;
      ReadChar();
    }

    /** `readChar`: load the byte at `readPos` (0 past the end) and move both indices on. */
    method ReadChar()
      modifies this
      ensures Valid()
      ensures pos == old(readPos) && readPos == old(readPos) + 1
      ensures ch == ByteAt(input, old(readPos))
    {
      if readPos >= |input| {
        ch := 0;
      } else {
        ch := input[readPos];
      }
      pos := readPos;
      readPos := readPos + 1;
    }

    /** `NextToken`: classify the current byte, then advance by exactly one byte. */
    method NextToken() returns (t: Token)
      requires Valid()
      modifies this
      ensures Valid()
      ensures t == TokenFor(old(ch)) && t == TokenAt(input, old(pos))
      ensures pos == old(pos) + 1
    {
      match ch {
        case 61 => t := NewToken(ASSIGN, ch);
        case 59 => t := NewToken(SEMICOLON, ch);
        case 40 => t := NewToken(LPAREN, ch);
        case 41 => t := NewToken(RPAREN, ch);
        case 44 => t := NewToken(COMMA, ch);
        case 123 => t := NewToken(LBRACE, ch);
        case 125 => t := NewToken(RBRACE, ch);
        case 43 => t := NewToken(PLUS, ch);
        case 0 => t := Token(EOF, "");
        case _ => t := Token(UNSET, "");
      }
      ReadChar();
    }
  }

  /** The eight punctuation bytes map to their kinds, with the byte as a one-character literal. */
  lemma PunctuationTokens()
    ensures TokenFor('=' as byte) == Token(ASSIGN, "=") && TokenFor(';' as byte) == Token(SEMICOLON, ";")
    ensures TokenFor('(' as byte) == Token(LPAREN, "(") && TokenFor(')' as byte) == Token(RPAREN, ")")
    ensures TokenFor(',' as byte) == Token(COMMA, ",") && TokenFor('{' as byte) == Token(LBRACE, "{")
    ensures TokenFor('}' as byte) == Token(RBRACE, "}") && TokenFor('+' as byte) == Token(PLUS, "+")
  {
  }

  /** Letters, digits, whitespace and the other operator characters are not lexed: they yield the zero token. */
  lemma UnrecognisedBytes(c: byte)
    requires c != 0 && c !in Punctuation
    ensures TokenFor(c) == Token(UNSET, "")
  {
  }

  /** Past the end every call returns EOF; a NUL byte inside the input also reads as EOF. */
  lemma EndOfInput(input: seq<byte>, k: nat)
    ensures k >= |input| ==> TokenAt(input, k) == Token(EOF, "")
    ensures k < |input| && input[k] == 0 ==> TokenAt(input, k) == Token(EOF, "")
  {
  }

  /** The lexer's own test input `=+(){},;` yields its eight tokens and then EOF. */
  lemma PunctuationStream()
    ensures var input: seq<byte> := ['=' as byte, '+' as byte, '(' as byte, ')' as byte,
                                     '{' as byte, '}' as byte, ',' as byte, ';' as byte];
      TokenAt(input, 0) == Token(ASSIGN, "=") && TokenAt(input, 1) == Token(PLUS, "+") &&
      TokenAt(input, 2) == Token(LPAREN, "(") && TokenAt(input, 3) == Token(RPAREN, ")") &&
      TokenAt(input, 4) == Token(LBRACE, "{") && TokenAt(input, 5) == Token(RBRACE, "}") &&
      TokenAt(input, 6) == Token(COMMA, ",") && TokenAt(input, 7) == Token(SEMICOLON, ";") &&
      TokenAt(input, 8) == Token(EOF, "")
  {
  }

  /** A client run of the class: the method contracts alone give the token sequence. */
  method LexPunctuation() returns (ts: seq<Token>)
    ensures ts == [Token(ASSIGN, "="), Token(PLUS, "+"), Token(EOF, ""), Token(EOF, "")]
  {
    var l := new Lexer.New(['=' as byte, '+' as byte]);
    var t0 := l.NextToken();
    var t1 := l.NextToken();
    var t2 := l.NextToken();
    var t3 := l.NextToken();
    ts := [t0, t1, t2, t3];
  }
}
