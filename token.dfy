/** The token vocabulary shared by the lexer and the parser, and the keyword table
    that decides whether an identifier-shaped word is a keyword. */
module Tokens {
  import opened Wrappers

  /** The closed set of token kinds. Each kind has a raw string value (see RawValue),
      which the parser's error messages print. */
  datatype TokenType =
    | ILLEGAL | EOF
    | IDENT | INT
    | ASSIGN | EQUAL | NOTEQUAL
    | PLUS | MINUS | BANG | ASTERISK | SLASH
    | GREATER | LESSTHAN
    | COMMA | SEMICOLON
    | LPAREN | RPAREN | LBRACE | RBRACE | LBRACKET | RBRACKET
    | COLON
    | FUNCTION | LET | TRUE | FALSE | IF | ELSE | RETURN | STRING

  /** A token: its kind and the literal text it was scanned from. */
  datatype Token = Token(kind: TokenType, literal: string)

  /** The raw value the enumeration assigns to each kind. */
  function RawValue(t: TokenType): string
  {
    match t
    case ILLEGAL => "ILLEGAL"
    case EOF => "EOF"
    case IDENT => "IDENT"
    case INT => "INT"
    case ASSIGN => "="
    case EQUAL => "=="
    case NOTEQUAL => "!="
    case PLUS => "+"
    case MINUS => "-"
    case BANG => "!"
    case ASTERISK => "*"
    case SLASH => "/"
    case GREATER => ">"
    case LESSTHAN => "<"
    case COMMA => ","
    case SEMICOLON => ";"
    case LPAREN => "("
    case RPAREN => ")"
    case LBRACE => "{"
    case RBRACE => "}"
    case LBRACKET => "["
    case RBRACKET => "]"
    case COLON => ":"
    case FUNCTION => "FUNCTION"
    case LET => "LET"
    case TRUE => "TRUE"
    case FALSE => "FALSE"
    case IF => "IF"
    case ELSE => "ELSE"
    case RETURN => "RETURN"
    case STRING => "STRING"
  }

  /** The failable initialiser from a raw value: the kind whose raw value is `s`, if any. */
  function FromRawValue(s: string): Option<TokenType>
  {
    if s == "ILLEGAL" then Some(ILLEGAL)
    else if s == "EOF" then Some(EOF)
    else if s == "IDENT" then Some(IDENT)
    else if s == "INT" then Some(INT)
    else if s == "=" then Some(ASSIGN)
    else if s == "==" then Some(EQUAL)
    else if s == "!=" then Some(NOTEQUAL)
    else if s == "+" then Some(PLUS)
    else if s == "-" then Some(MINUS)
    else if s == "!" then Some(BANG)
    else if s == "*" then Some(ASTERISK)
    else if s == "/" then Some(SLASH)
    else if s == ">" then Some(GREATER)
    else if s == "<" then Some(LESSTHAN)
    else if s == "," then Some(COMMA)
    else if s == ";" then Some(SEMICOLON)
    else if s == "(" then Some(LPAREN)
    else if s == ")" then Some(RPAREN)
    else if s == "{" then Some(LBRACE)
    else if s == "}" then Some(RBRACE)
    else if s == "[" then Some(LBRACKET)
    else if s == "]" then Some(RBRACKET)
    else if s == ":" then Some(COLON)
    else if s == "FUNCTION" then Some(FUNCTION)
    else if s == "LET" then Some(LET)
    else if s == "TRUE" then Some(TRUE)
    else if s == "FALSE" then Some(FALSE)
    else if s == "IF" then Some(IF)
    else if s == "ELSE" then Some(ELSE)
    else if s == "RETURN" then Some(RETURN)
    else if s == "STRING" then Some(STRING)
    else None
  }

  /** Reading a kind back from its raw value gives the kind again. */
  lemma RawValueRoundTrip(t: TokenType)
    ensures FromRawValue(RawValue(t)) == Some(t)
  {
  }

  /** Raw values are pairwise distinct, so an error message names its kind unambiguously. */
  lemma RawValueInjective(a: TokenType, b: TokenType)
    ensures RawValue(a) == RawValue(b) ==> a == b
  {
    RawValueRoundTrip(a);
    RawValueRoundTrip(b);
  }

  /** The keyword table. */
  const Keywords: map<string, TokenType> :=
    map["fn" := FUNCTION, "let" := LET, "true" := TRUE, "false" := FALSE,
        "if" := IF, "else" := ELSE, "return" := RETURN]

  /** The seven kinds the keyword table produces. */
  predicate IsKeyword(t: TokenType)
  {
    t == FUNCTION || t == LET || t == TRUE || t == FALSE || t == IF || t == ELSE || t == RETURN
  }

  /** The kind of an identifier-shaped word: its keyword kind, or IDENT. */
  function LookupIdent(ident: string): (t: TokenType)
    ensures t == IDENT || IsKeyword(t)
    ensures t != IDENT <==> ident in Keywords
  {
    if ident in Keywords then Keywords[ident] else IDENT
  }

  /** Each keyword spelling maps to its own kind. */
  lemma LookupIdentKeywords()
    ensures LookupIdent("fn") == FUNCTION && LookupIdent("let") == LET
    ensures LookupIdent("true") == TRUE && LookupIdent("false") == FALSE
    ensures LookupIdent("if") == IF && LookupIdent("else") == ELSE
    ensures LookupIdent("return") == RETURN
  {
  }

  /** Any other word, including a keyword written with different case, is an identifier. */
  lemma LookupIdentOther(ident: string)
    requires ident !in {"fn", "let", "true", "false", "if", "else", "return"}
    ensures LookupIdent(ident) == IDENT
  {
  }

  /** The keyword table is injective, and every keyword kind is reached by exactly one spelling. */
  lemma KeywordsInjective(a: string, b: string)
    requires a in Keywords && b in Keywords && a != b
    ensures Keywords[a] != Keywords[b]
  {
  }

  /** Every keyword kind has a spelling in the table. */
  lemma KeywordsCoverKeywordKinds(t: TokenType)
    requires IsKeyword(t)
    ensures exists s :: s in Keywords && Keywords[s] == t
  {
    var s := match t
      case FUNCTION => "fn" case LET => "let" case TRUE => "true" case FALSE => "false"
      case IF => "if" case ELSE => "else" case _ => "return";
    assert s in Keywords && Keywords[s] == t;
  }
}
