/** The lexer: splits source text into tokens, skipping white space. The
    Unicode character classes it consults (`char.IsLetter`, `char.IsDigit`,
    `char.IsWhiteSpace`) are parameters of the model. */
module Lexing {
  import opened Wrappers
  import opened Sequences
  import opened Tokens

  /** The three character classes the lexer asks about. */
  datatype CharClasses = CharClasses(isLetter: char -> bool, isDigit: char -> bool, isWhiteSpace: char -> bool)

  /** The real classes never overlap white space with letters or digits. */
  predicate Separated(cc: CharClasses) {
    forall c: char :: cc.isWhiteSpace(c) ==> !cc.isLetter(c) && !cc.isDigit(c)
  }

  /** The eight characters that are a token on their own. */
  function Punctuation(c: char): Option<TokenType> {
    match c
    case '=' => Some(Assign)
    case ';' => Some(Semicolon)
    case '(' => Some(LeftParenthese)
    case ')' => Some(RightParenthese)
    case '{' => Some(LeftBrace)
    case '}' => Some(RightBrace)
    case ',' => Some(Comma)
    case '+' => Some(Plus)
    case _ => None
  }

  /** The length of the longest run of characters in class `p` starting at `pos`. */
  function RunLength(input: string, pos: nat, p: char -> bool): (n: nat)
    requires pos <= |input|
    ensures pos + n <= |input|
    ensures forall k | pos <= k < pos + n :: p(input[k])
    ensures pos + n < |input| ==> !p(input[pos + n])
    decreases |input| - pos
  {
    if pos < |input| && p(input[pos]) then 1 + RunLength(input, pos + 1, p) else 0
  }

  /** What a token of the lexer's output looks like: a punctuation
      character with its own type; a run of letters whose type is the
      keyword lookup of the run; a run of digits, an integer; or one other
      character, illegal. */
  predicate Shaped(cc: CharClasses, t: Token) {
    |t.literal| > 0 &&
    var c := t.literal[0];
    if Punctuation(c).Some? then t == Token(Punctuation(c).value, [c])
    else if cc.isLetter(c) then
      t.tokenType == LookupIdentifier(t.literal) && forall k | 0 <= k < |t.literal| :: cc.isLetter(t.literal[k])
    else if cc.isDigit(c) then
      t.tokenType == Integer && forall k | 0 <= k < |t.literal| :: cc.isDigit(t.literal[k])
    else t == Token(Illegal, [c])
  }

  /** `GetTokenOnLetter`: the run of letters at `p`, typed by the keyword
      lookup, and the position after it. */
  function TokenOnLetter(cc: CharClasses, input: string, p: nat): (r: (Token, nat))
    requires p < |input| && cc.isLetter(input[p])
    ensures p < r.1 <= |input| && r.0.literal == input[p..r.1] && r.0.literal[0] == input[p]
    ensures r.0.tokenType == LookupIdentifier(r.0.literal) && r.0.tokenType != EndOfFile
    ensures forall k | 0 <= k < |r.0.literal| :: cc.isLetter(r.0.literal[k])
    ensures r.1 < |input| ==> !cc.isLetter(input[r.1])
  {
    var n := RunLength(input, p, cc.isLetter);
    var word := input[p..p + n];
    assert forall k | 0 <= k < |word| :: word[k] == input[p + k];
    (Token(LookupIdentifier(word), word), p + n)
  }

  /** `GetTokenOnDigit`: the run of digits at `p`, an integer token, and the
      position after it. */
  function TokenOnDigit(cc: CharClasses, input: string, p: nat): (r: (Token, nat))
    requires p < |input| && cc.isDigit(input[p])
    ensures p < r.1 <= |input| && r.0.literal == input[p..r.1] && r.0.literal[0] == input[p]
    ensures r.0.tokenType == Integer
    ensures forall k | 0 <= k < |r.0.literal| :: cc.isDigit(r.0.literal[k])
    ensures r.1 < |input| ==> !cc.isDigit(input[r.1])
  {
    var n := RunLength(input, p, cc.isDigit);
    var digits := input[p..p + n];
    assert forall k | 0 <= k < |digits| :: digits[k] == input[p + k];
    (Token(Integer, digits), p + n)
  }

  /** The token starting at `p` and the position after it. */
  function TokenAt(cc: CharClasses, input: string, p: nat): (r: (Token, nat))
    requires p < |input|
    ensures p < r.1 <= |input| && r.0.literal == input[p..r.1]
    ensures r.0.tokenType != EndOfFile && Shaped(cc, r.0)
    ensures r.1 < |input| && cc.isLetter(input[p]) && Punctuation(input[p]).None? ==> !cc.isLetter(input[r.1])
    ensures r.1 < |input| && cc.isDigit(input[p]) && !cc.isLetter(input[p]) && Punctuation(input[p]).None? ==>
      !cc.isDigit(input[r.1])
  {
    var c := input[p];
    match Punctuation(c)
    case Some(t) => (Token(t, [c]), p + 1)
    case None =>
      if cc.isLetter(c) then TokenOnLetter(cc, input, p)
      else if cc.isDigit(c) then TokenOnDigit(cc, input, p)
      else (Token(Illegal, [c]), p + 1)
  }

  /** The tokens of `input` from `pos` on. */
  function Lex(cc: CharClasses, input: string, pos: nat): (r: seq<Token>)
    requires pos <= |input|
    ensures |r| >= 1
    decreases |input| - pos
  {
    var p := pos + RunLength(input, pos, cc.isWhiteSpace);
    if p >= |input| then [Token(EndOfFile, "")]
    else
      var (t, next) := TokenAt(cc, input, p);
      [t] + Lex(cc, input, next)
  }

  /** One round of the lexer: skip white space, then scan one token. */
  lemma LexRound(cc: CharClasses, input: string, pos: nat, p: nat, t: Token, next: nat)
    requires pos <= p < |input| && p == pos + RunLength(input, pos, cc.isWhiteSpace)
    requires (t, next) == TokenAt(cc, input, p)
    ensures Lex(cc, input, pos) == [t] + Lex(cc, input, next)
  {
  }

  /** Once only white space is left, the stream is just the EndOfFile token. */
  lemma LexAtEnd(cc: CharClasses, input: string, pos: nat)
    requires pos <= |input| && pos + RunLength(input, pos, cc.isWhiteSpace) == |input|
    ensures Lex(cc, input, pos) == [Token(EndOfFile, "")]
  {
  }

  /** A well-shaped token in front of a stream that ends with one EndOfFile
      token and is otherwise well shaped keeps the stream so. */
  lemma PrependShaped(cc: CharClasses, t: Token, rest: seq<Token>)
    requires t.tokenType != EndOfFile && Shaped(cc, t)
    requires |rest| >= 1 && rest[|rest| - 1] == Token(EndOfFile, "")
    requires forall i | 0 <= i < |rest| - 1 :: rest[i].tokenType != EndOfFile && Shaped(cc, rest[i])
    ensures var r := [t] + rest;
      r[|r| - 1] == Token(EndOfFile, "")
      && forall i | 0 <= i < |r| - 1 :: r[i].tokenType != EndOfFile && Shaped(cc, r[i])
  {
    var r := [t] + rest;
    forall i | 0 <= i < |r| - 1
      ensures r[i].tokenType != EndOfFile && Shaped(cc, r[i])
    {
      if i > 0 {
        assert r[i] == rest[i - 1];
      }
    }
  }

  /** The stream ends with one EndOfFile token, with an empty literal, and
      has no other; every other token is well shaped. */
  lemma {:induction false} LexEndsOnce(cc: CharClasses, input: string, pos: nat)
    requires pos <= |input|
    ensures var r := Lex(cc, input, pos);
      r[|r| - 1] == Token(EndOfFile, "")
      && forall i | 0 <= i < |r| - 1 :: r[i].tokenType != EndOfFile && Shaped(cc, r[i])
    decreases |input| - pos
  {
    var p := pos + RunLength(input, pos, cc.isWhiteSpace);
    if p < |input| {
      var (t, next) := TokenAt(cc, input, p);
      LexEndsOnce(cc, input, next);
      LexRound(cc, input, pos, p, t, next);
      PrependShaped(cc, t, Lex(cc, input, next));
    } else {
      LexAtEnd(cc, input, pos);
    }
  }

  /** The characters of `s` that are not white space. */
  function Strip(cc: CharClasses, s: string): (r: string)
    ensures |r| <= |s|
    ensures forall k | 0 <= k < |r| :: !cc.isWhiteSpace(r[k])
  {
    if s == [] then []
    else (if cc.isWhiteSpace(s[0]) then [] else [s[0]]) + Strip(cc, s[1..])
  }

  /** The literals of a token sequence, one after the other. */
  function Spelling(tokens: seq<Token>): string {
    if tokens == [] then [] else tokens[0].literal + Spelling(tokens[1..])
  }

  /** Splitting the text splits what is left of it. */
  lemma {:induction false} StripAppend(cc: CharClasses, a: string, b: string)
    ensures Strip(cc, a + b) == Strip(cc, a) + Strip(cc, b)
    decreases |a|
  {
    if a == [] {
      assert a + b == b;
    } else {
      var head := if cc.isWhiteSpace(a[0]) then [] else [a[0]];
      assert (a + b)[0] == a[0];
      assert (a + b)[1..] == a[1..] + b;
      StripAppend(cc, a[1..], b);
      assert Strip(cc, a + b) == head + (Strip(cc, a[1..]) + Strip(cc, b));
      Associative(head, Strip(cc, a[1..]), Strip(cc, b));
    }
  }

  /** Text without white space is left as it is; text of white space alone vanishes. */
  lemma {:induction false} StripKeepsOrDrops(cc: CharClasses, s: string)
    ensures (forall k | 0 <= k < |s| :: !cc.isWhiteSpace(s[k])) ==> Strip(cc, s) == s
    ensures (forall k | 0 <= k < |s| :: cc.isWhiteSpace(s[k])) ==> Strip(cc, s) == []
    decreases |s|
  {
    if s != [] {
      StripKeepsOrDrops(cc, s[1..]);
      assert s == [s[0]] + s[1..];
    }
  }

  /** Skipping white space removes nothing that Strip keeps. */
  lemma StripSkipped(cc: CharClasses, input: string, pos: nat)
    requires pos <= |input|
    ensures Strip(cc, input[pos..]) == Strip(cc, input[pos + RunLength(input, pos, cc.isWhiteSpace)..])
  {
    var p := pos + RunLength(input, pos, cc.isWhiteSpace);
    assert input[pos..] == input[pos..p] + input[p..];
    StripAppend(cc, input[pos..p], input[p..]);
    StripKeepsOrDrops(cc, input[pos..p]);
  }

  /** A token never holds white space: it starts where the skipping stopped,
      and the letters and digits of a run are not white space. */
  lemma TokenHasNoWhiteSpace(cc: CharClasses, input: string, p: nat)
    requires Separated(cc) && p < |input| && !cc.isWhiteSpace(input[p])
    ensures var literal := TokenAt(cc, input, p).0.literal;
      forall k | 0 <= k < |literal| :: !cc.isWhiteSpace(literal[k])
  {
    var literal := TokenAt(cc, input, p).0.literal;
    forall k | 0 <= k < |literal|
      ensures !cc.isWhiteSpace(literal[k])
    {
      assert literal[k] == input[p + k];
    }
  }

  /** What Strip keeps from a token onwards: the token's literal, then the rest. */
  lemma StripToken(cc: CharClasses, input: string, p: nat)
    requires Separated(cc) && p < |input| && !cc.isWhiteSpace(input[p])
    ensures var (t, next) := TokenAt(cc, input, p);
      Strip(cc, input[p..]) == t.literal + Strip(cc, input[next..])
  {
    var (t, next) := TokenAt(cc, input, p);
    assert input[p..] == input[p..next] + input[next..];
    StripAppend(cc, input[p..next], input[next..]);
    TokenHasNoWhiteSpace(cc, input, p);
    StripKeepsOrDrops(cc, t.literal);
  }

  lemma SpellingCons(t: Token, rest: seq<Token>)
    ensures Spelling([t] + rest) == t.literal + Spelling(rest)
  {
    assert ([t] + rest)[1..] == rest;
  }

  /** The literals of the stream spell the input with its white space
      removed: nothing is lost, duplicated or reordered. */
  lemma {:induction false} LexSpellsInput(cc: CharClasses, input: string, pos: nat)
    requires Separated(cc) && pos <= |input|
    ensures Spelling(Lex(cc, input, pos)) == Strip(cc, input[pos..])
    decreases |input| - pos
  {
    var p := pos + RunLength(input, pos, cc.isWhiteSpace);
    StripSkipped(cc, input, pos);
    if p >= |input| {
      LexAtEnd(cc, input, pos);
      SpellingCons(Token(EndOfFile, ""), []);
      assert input[p..] == [];
    } else {
      var (t, next) := TokenAt(cc, input, p);
      LexRound(cc, input, pos, p, t, next);
      SpellingCons(t, Lex(cc, input, next));
      LexSpellsInput(cc, input, next);
      StripToken(cc, input, p);
    }
  }

  class Lexer {
    const input: string
    const classes: CharClasses

    constructor (input: string, classes: CharClasses)
      ensures this.input == input && this.classes == classes
    {
      this.input := input;
      this.classes := classes;
    }

    /** `GetTokens`: the whole token stream, which C# yields lazily. */
    method GetTokens() returns (tokens: seq<Token>)
      ensures tokens == Lex(classes, input, 0)
    {
      var position := 0;
      tokens := [];
      while position < |input|
        invariant position <= |input|
        invariant tokens + Lex(classes, input, position) == Lex(classes, input, 0)
      {
        var skipped := GetWhiteSpaceLength(position);
        ghost var start := position;
        position := position + skipped;
        if position < |input| {
          var token, next := ScanToken(position);
          LexRound(classes, input, start, position, token, next);
          Associative(tokens, [token], Lex(classes, input, next));
          tokens, position := tokens + [token], next;
        } else {
          LexAtEnd(classes, input, start);
          LexAtEnd(classes, input, position);
        }
      }
      LexAtEnd(classes, input, position);
      tokens := tokens + [Token(EndOfFile, "")];
    }

    /** The `switch` on the character at `position`, which is not white space. */
    method ScanToken(position: nat) returns (token: Token, next: nat)
      requires position < |input|
      ensures (token, next) == TokenAt(classes, input, position)
    {
      var c := input[position];
      match Punctuation(c)
      case Some(t) =>
        token, next := Token(t, [c]), position + 1;
      case None =>
        if classes.isLetter(c) {
          token, next := GetTokenOnLetter(position);
          assert (token, next) == TokenOnLetter(classes, input, position);
        } else if classes.isDigit(c) {
          token, next := GetTokenOnDigit(position);
          assert (token, next) == TokenOnDigit(classes, input, position);
        } else {
          token, next := Token(Illegal, [c]), position + 1;
        }
    }

    /** A run of letters, typed by the keyword lookup. */
    method GetTokenOnLetter(position: nat) returns (token: Token, next: nat)
      requires position <= |input|
      ensures var n := RunLength(input, position, classes.isLetter);
        token == Token(LookupIdentifier(input[position..position + n]), input[position..position + n])
        && next == position + n
    {
      var length := GetIdentifierLength(position);
      var literal := input[position..position + length];
      token, next := Token(LookupIdentifier(literal), literal), position + length;
    }

    /** A run of digits, an integer token. */
    method GetTokenOnDigit(position: nat) returns (token: Token, next: nat)
      requires position <= |input|
      ensures var n := RunLength(input, position, classes.isDigit);
        token == Token(Integer, input[position..position + n]) && next == position + n
    {
      var length := GetNumberLength(position);
      token, next := Token(Integer, input[position..position + length]), position + length;
    }

    method GetWhiteSpaceLength(position: nat) returns (length: nat)
      requires position <= |input|
      ensures length == RunLength(input, position, classes.isWhiteSpace)
    {
      var i := position;
      while i < |input| && classes.isWhiteSpace(input[i])
        invariant position <= i <= |input|
        invariant RunLength(input, position, classes.isWhiteSpace) == i - position + RunLength(input, i, classes.isWhiteSpace)
      {
        i := i + 1;
      }
      length := i - position;
    }

    method GetIdentifierLength(position: nat) returns (length: nat)
      requires position <= |input|
      ensures length == RunLength(input, position, classes.isLetter)
    {
      var i := position;
      while i < |input| && classes.isLetter(input[i])
        invariant position <= i <= |input|
        invariant RunLength(input, position, classes.isLetter) == i - position + RunLength(input, i, classes.isLetter)
      {
        i := i + 1;
      }
      length := i - position;
    }

    method GetNumberLength(position: nat) returns (length: nat)
      requires position <= |input|
      ensures length == RunLength(input, position, classes.isDigit)
    {
      var i := position;
      while i < |input| && classes.isDigit(input[i])
        invariant position <= i <= |input|
        invariant RunLength(input, position, classes.isDigit) == i - position + RunLength(input, i, classes.isDigit)
      {
        i := i + 1;
      }
      length := i - position;
    }
  }

  /** `Lexer.For`. */
  method For(input: string, classes: CharClasses) returns (lexer: Lexer)
    ensures fresh(lexer) && lexer.input == input && lexer.classes == classes
  {
    lexer := new Lexer(input, classes);
  }
}
