/** Tokens: the token kinds, the token record, the keyword lookup and the
    quote stripping of string literals. */
module Tokens {
  import opened Wrappers
  import opened Runtime

  /** `enum TokenType`. */
  datatype TokenType =
    | Illegal | EndOfFile
    | Identifier | Integer | String
    | Assign | Plus | Minus | Bang | Asterisk | Slash
    | LessThan | GreaterThan
    | Equals | NotEquals
    | Comma | Semicolon | Colon
    | LeftParenthese | RightParenthese | LeftBrace | RightBrace | LeftBracket | RightBracket
    | Function | Let | True | False | If | Else | Return | Macro

  /** `record Token(TokenType Type, string Literal)`: a value, equal to another
      token exactly when both the type and the literal are equal. */
  datatype Token = Token(tokenType: TokenType, literal: string)

  /** The keyword spelled by a token type, for the eight keyword types. */
  function Keyword(t: TokenType): Option<string> {
    match t
    case Function => Some("fn")
    case Let => Some("let")
    case True => Some("true")
    case False => Some("false")
    case If => Some("if")
    case Else => Some("else")
    case Return => Some("return")
    case Macro => Some("macro")
    case _ => None
  }

  /** `TokenTypeLookup.Identifier`: the keyword type of a run of letters, or
      Identifier for every other spelling (the comparison is ordinal, so a
      keyword in another case is an identifier). */
  function LookupIdentifier(identifier: string): (t: TokenType)
    ensures t == Identifier || Keyword(t) == Some(identifier)
  {
    if identifier == "fn" then Function
    else if identifier == "let" then Let
    else if identifier == "true" then True
    else if identifier == "false" then False
    else if identifier == "if" then If
    else if identifier == "else" then Else
    else if identifier == "return" then Return
    else if identifier == "macro" then Macro
    else Identifier
  }

  /** The lookup and Keyword are inverse: a spelling maps to a keyword type
      exactly when it is that type's keyword, and to Identifier otherwise. */
  lemma LookupKeyword(identifier: string, t: TokenType)
    requires t != Identifier
    ensures LookupIdentifier(identifier) == t <==> Keyword(t) == Some(identifier)
  {
  }

  /** A spelling that is no keyword is an identifier. */
  lemma LookupNonKeyword(identifier: string)
    requires forall t: TokenType :: Keyword(t) != Some(identifier)
    ensures LookupIdentifier(identifier) == Identifier
  {
    assert Keyword(LookupIdentifier(identifier)) != Some(identifier);
  }

  /** `StringToken.RemoveEnclosingQuotes`: the literal without its first and
      last characters. `Substring(1, Length - 2)` throws for a literal shorter
      than two characters. */
  function RemoveEnclosingQuotes(literal: string): (r: Result<string, Exception>)
    ensures r.Success? <==> |literal| >= 2
    ensures r.Failure? ==> r.error == ArgumentOutOfRange
    ensures r.Success? ==> [literal[0]] + r.value + [literal[|literal| - 1]] == literal
  {
    if |literal| < 2 then Failure(ArgumentOutOfRange)
    else Success(literal[1..|literal| - 1])
  }

  /** Enclosing any text in quotes and removing them gives the text back. */
  lemma RemoveEnclosingQuotesOfQuoted(text: string)
    ensures RemoveEnclosingQuotes(['"'] + text + ['"']) == Success(text)
  {
    var quoted := ['"'] + text + ['"'];
    assert quoted[1..|quoted| - 1] == text;
  }

  /** The name `TokenType.ToString()` gives, as the parser's error messages print it. */
  function TypeName(t: TokenType): (s: string)
    ensures |s| > 0
  {
    match t
    case Illegal => "Illegal"
    case EndOfFile => "EndOfFile"
    case Identifier => "Identifier"
    case Integer => "Integer"
    case String => "String"
    case Assign => "Assign"
    case Plus => "Plus"
    case Minus => "Minus"
    case Bang => "Bang"
    case Asterisk => "Asterisk"
    case Slash => "Slash"
    case LessThan => "LessThan"
    case GreaterThan => "GreaterThan"
    case Equals => "Equals"
    case NotEquals => "NotEquals"
    case Comma => "Comma"
    case Semicolon => "Semicolon"
    case Colon => "Colon"
    case LeftParenthese => "LeftParenthese"
    case RightParenthese => "RightParenthese"
    case LeftBrace => "LeftBrace"
    case RightBrace => "RightBrace"
    case LeftBracket => "LeftBracket"
    case RightBracket => "RightBracket"
    case Function => "Function"
    case Let => "Let"
    case True => "True"
    case False => "False"
    case If => "If"
    case Else => "Else"
    case Return => "Return"
    case Macro => "Macro"
  }
}
