/** The parser: reads `let` and `return` statements from the token stream,
    skipping the expression of each up to its semicolon, and collects error
    messages for malformed `let`s. The token enumerator is a sequence and
    the number of tokens pulled from it; once it is exhausted every pull
    gives an EndOfFile token. */
module Parsing {
  import opened Wrappers
  import opened Sequences
  import opened Tokens
  import opened Ast
  import Lexing

  /** The expression a statement carries in place of the one it skips. */
  const Placeholder := "Some BS Expressions"

  /** The k-th token pulled from the stream: EndOfFile past its end. */
  function Pull(tokens: seq<Token>, k: nat): (t: Token)
    ensures k >= |tokens| ==> t == Token(EndOfFile, "")
    ensures k < |tokens| ==> t == tokens[k]
  {
    if k < |tokens| then tokens[k] else Token(EndOfFile, "")
  }

  /** Some token after position `pos` is a semicolon. */
  predicate SemicolonAfter(tokens: seq<Token>, pos: nat) {
    exists j :: pos < j < |tokens| && tokens[j].tokenType == Semicolon
  }

  /** The `let` at `pos` reaches its skip loop: an identifier and `=`
      follow it. */
  predicate LetSkips(tokens: seq<Token>, pos: nat) {
    Pull(tokens, pos + 1).tokenType == TokenType.Identifier && Pull(tokens, pos + 2).tokenType == Assign
  }

  /** The `let` at `pos` ends: either it fails before its skip loop, or a
      semicolon comes after its `=`. */
  predicate LetTerminates(tokens: seq<Token>, pos: nat) {
    LetSkips(tokens, pos) ==> SemicolonAfter(tokens, pos + 2)
  }

  /** A statement attempt at `pos` ends: a `let` ends, and a `return` has a
      semicolon after it. The loops that skip an expression stop only at a
      semicolon, and past the end of the stream they see only EndOfFile. */
  predicate Terminates(tokens: seq<Token>, pos: nat) {
    (Pull(tokens, pos).tokenType == Let ==> LetTerminates(tokens, pos))
    && (Pull(tokens, pos).tokenType == Return ==> SemicolonAfter(tokens, pos))
  }

  /** Every statement attempt in the stream ends. */
  predicate SemicolonsFollow(tokens: seq<Token>) {
    forall i | 0 <= i < |tokens| :: Terminates(tokens, i)
  }

  /** The first semicolon at or after `pos`. */
  function NextSemicolon(tokens: seq<Token>, pos: nat): (j: nat)
    requires exists j :: pos <= j < |tokens| && tokens[j].tokenType == Semicolon
    ensures pos <= j < |tokens| && tokens[j].tokenType == Semicolon
    decreases |tokens| - pos
  {
    if tokens[pos].tokenType == Semicolon then pos
    else NextSemicolon(tokens, pos + 1)
  }

  /** No semicolon comes between `pos` and the one `NextSemicolon` finds. */
  lemma {:induction false} NextSemicolonIsFirst(tokens: seq<Token>, pos: nat)
    requires exists j :: pos <= j < |tokens| && tokens[j].tokenType == Semicolon
    ensures forall k | pos <= k < NextSemicolon(tokens, pos) :: tokens[k].tokenType != Semicolon
    decreases |tokens| - pos
  {
    if tokens[pos].tokenType != Semicolon {
      NextSemicolonIsFirst(tokens, pos + 1);
    }
  }

  /** A failed `ExpectPeek`: the token type wanted and the one found. */
  datatype PeekFailure = PeekFailure(expected: TokenType, got: TokenType)

  const Expected := "expected next token to be "
  const Got := ", got "
  const Instead := " instead"

  /** The message `PeekError` records. */
  function Message(f: PeekFailure): string {
    Expected + TypeName(f.expected) + Got + TypeName(f.got) + Instead
  }

  /** The messages of a list of failures, in order. */
  function Messages(failures: seq<PeekFailure>): (r: seq<string>)
    ensures |r| == |failures|
  {
    if failures == [] then [] else [Message(failures[0])] + Messages(failures[1..])
  }

  lemma {:induction false} MessagesAppend(a: seq<PeekFailure>, b: seq<PeekFailure>)
    ensures Messages(a + b) == Messages(a) + Messages(b)
  {
    if a == [] {
      assert a + b == b;
    } else {
      assert (a + b)[0] == a[0] && (a + b)[1..] == a[1..] + b;
      MessagesAppend(a[1..], b);
      Associative([Message(a[0])], Messages(a[1..]), Messages(b));
    }
  }

  /** A statement as the parser builds it: a `let` with its identifier
      (whose value is the identifier's literal), or a `return`; both carry
      the placeholder expression made from their own keyword token. */
  predicate WellParsed(s: Statement) {
    match s
    case LetStatement(token, name, value) =>
      token.tokenType == Let && name.token.tokenType == TokenType.Identifier && name.value == name.token.literal
      && value == Ident(Ast.Identifier(token, Placeholder))
    case ReturnStatement(token, value) =>
      token.tokenType == Return && value == Ident(Ast.Identifier(token, Placeholder))
    case _ => false
  }

  /** The outcome of parsing one statement: the statement if any, the
      position of the current token afterwards, and the failures recorded. */
  datatype StatementParse = StatementParse(statement: Option<Statement>, end: nat, failures: seq<PeekFailure>) {
    /** The statements the attempt adds to the program: none or one. */
    function Parsed(): seq<Statement> {
      if statement.Some? then [statement.value] else []
    }
  }

  /** `ParseLetStatement` with the `let` at `pos`: identifier, then `=`,
      then everything up to the semicolon. A missing identifier leaves the
      parser on the `let`, a missing `=` on the identifier. */
  function ParseLetAt(tokens: seq<Token>, pos: nat): (r: StatementParse)
    requires LetTerminates(tokens, pos)
    ensures pos <= r.end
  {
    var token := Pull(tokens, pos);
    var name := Pull(tokens, pos + 1);
    if name.tokenType != TokenType.Identifier then
      StatementParse(None, pos, [PeekFailure(TokenType.Identifier, name.tokenType)])
    else if Pull(tokens, pos + 2).tokenType != Assign then
      StatementParse(None, pos + 1, [PeekFailure(Assign, Pull(tokens, pos + 2).tokenType)])
    else
      var end := NextSemicolon(tokens, pos + 2);
      StatementParse(Some(LetStatement(token, Ast.Identifier(name, name.literal), Ident(Ast.Identifier(token, Placeholder)))), end, [])
  }

  /** `ParseReturnStatement` with the `return` at `pos`. */
  function ParseReturnAt(tokens: seq<Token>, pos: nat): (r: StatementParse)
    requires SemicolonAfter(tokens, pos)
    ensures pos < r.end
  {
    var token := Pull(tokens, pos);
    StatementParse(Some(ReturnStatement(token, Ident(Ast.Identifier(token, Placeholder)))), NextSemicolon(tokens, pos + 1), [])
  }

  /** `ParseStatment`: only `let` and `return` start a statement. */
  function ParseStatementAt(tokens: seq<Token>, pos: nat): (r: StatementParse)
    requires Terminates(tokens, pos)
    ensures pos <= r.end
  {
    var tokenType := Pull(tokens, pos).tokenType;
    if tokenType == Let then ParseLetAt(tokens, pos)
    else if tokenType == Return then ParseReturnAt(tokens, pos)
    else StatementParse(None, pos, [])
  }

  /** `ParseProgram` from the current token at `pos`: a statement attempt,
      one token forward, and again, until the current token is EndOfFile. */
  function ParseFrom(tokens: seq<Token>, pos: nat): (r: (seq<Statement>, seq<PeekFailure>))
    requires SemicolonsFollow(tokens)
    decreases |tokens| - pos
  {
    if Pull(tokens, pos).tokenType == EndOfFile then ([], [])
    else
      var attempt := ParseStatementAt(tokens, pos);
      var rest := ParseFrom(tokens, attempt.end + 1);
      (attempt.Parsed() + rest.0, attempt.failures + rest.1)
  }

  /** The `ParseProgram` loop itself, with the statements and failures
      gathered so far. */
  function ParseLoop(tokens: seq<Token>, pos: nat, statements: seq<Statement>, failures: seq<PeekFailure>)
    : (r: (seq<Statement>, seq<PeekFailure>))
    requires SemicolonsFollow(tokens)
    decreases |tokens| - pos
  {
    if Pull(tokens, pos).tokenType == EndOfFile then (statements, failures)
    else
      var attempt := ParseStatementAt(tokens, pos);
      ParseLoop(tokens, attempt.end + 1, statements + attempt.Parsed(), failures + attempt.failures)
  }

  // ------------------------------------------------------------- properties

  /** A `let` parses exactly when nothing fails; then it ends on a semicolon
      and carries the `let` token and the identifier, whose value is its
      literal. Without an identifier after the `let` the attempt records
      that and leaves the parser where it was; without `=` after the
      identifier it records that and leaves the parser on the identifier. */
  lemma LetOutcome(tokens: seq<Token>, pos: nat)
    requires LetTerminates(tokens, pos)
    ensures var r := ParseLetAt(tokens, pos);
      (r.statement.Some? <==> r.failures == [])
      && (r.statement.Some? ==>
            r.end < |tokens| && tokens[r.end].tokenType == Semicolon
            && r.statement.value == LetStatement(Pull(tokens, pos), Ast.Identifier(tokens[pos + 1], tokens[pos + 1].literal),
                                                 Ident(Ast.Identifier(Pull(tokens, pos), Placeholder))))
      && (Pull(tokens, pos + 1).tokenType != TokenType.Identifier ==>
            r == StatementParse(None, pos, [PeekFailure(TokenType.Identifier, Pull(tokens, pos + 1).tokenType)]))
      && (Pull(tokens, pos + 1).tokenType == TokenType.Identifier && Pull(tokens, pos + 2).tokenType != Assign ==>
            r == StatementParse(None, pos + 1, [PeekFailure(Assign, Pull(tokens, pos + 2).tokenType)]))
  {
  }

  /** A `return` always parses, without failure, up to the next semicolon. */
  lemma ReturnOutcome(tokens: seq<Token>, pos: nat)
    requires SemicolonAfter(tokens, pos)
    ensures var r := ParseReturnAt(tokens, pos);
      r.end < |tokens| && tokens[r.end].tokenType == Semicolon && r.failures == []
      && (forall k | pos < k < r.end :: tokens[k].tokenType != Semicolon)
      && r.statement == Some(ReturnStatement(Pull(tokens, pos), Ident(Ast.Identifier(Pull(tokens, pos), Placeholder))))
  {
    NextSemicolonIsFirst(tokens, pos + 1);
  }

  /** Only `let` and `return` start a statement, what is parsed has the
      shape the parser builds, and a failure is a missing identifier or `=`. */
  lemma AttemptShape(tokens: seq<Token>, pos: nat)
    requires Terminates(tokens, pos)
    ensures var r := ParseStatementAt(tokens, pos);
      (r.statement.Some? ==> WellParsed(r.statement.value))
      && (forall f <- r.failures :: f.expected == TokenType.Identifier || f.expected == Assign)
      && (Pull(tokens, pos).tokenType != Let && Pull(tokens, pos).tokenType != Return ==>
            r == StatementParse(None, pos, []))
  {
    if Pull(tokens, pos).tokenType == Let {
      LetOutcome(tokens, pos);
    } else if Pull(tokens, pos).tokenType == Return {
      ReturnOutcome(tokens, pos);
    }
  }

  /** The statements come out in the order of their tokens: the program
      from `pos` is the statement there, then the program after its end. */
  lemma ParseInOrder(tokens: seq<Token>, pos: nat, attempt: StatementParse)
    requires SemicolonsFollow(tokens) && Pull(tokens, pos).tokenType != EndOfFile
    requires attempt == ParseStatementAt(tokens, pos)
    ensures ParseFrom(tokens, pos).0 == attempt.Parsed() + ParseFrom(tokens, attempt.end + 1).0
    ensures ParseFrom(tokens, pos).1 == attempt.failures + ParseFrom(tokens, attempt.end + 1).1
  {
  }

  /** Every statement of a parsed program is a `let` or a `return` of the
      shape the parser builds, and every failure is a missing identifier or
      `=`. */
  lemma {:induction false} ParsedProgramShape(tokens: seq<Token>, pos: nat)
    requires SemicolonsFollow(tokens)
    ensures forall s <- ParseFrom(tokens, pos).0 :: WellParsed(s)
    ensures forall f <- ParseFrom(tokens, pos).1 :: f.expected == TokenType.Identifier || f.expected == Assign
    decreases |tokens| - pos
  {
    if Pull(tokens, pos).tokenType != EndOfFile {
      var attempt := ParseStatementAt(tokens, pos);
      ParsedProgramShape(tokens, attempt.end + 1);
      ParseInOrder(tokens, pos, attempt);
      AttemptShape(tokens, pos);
    }
  }

  /** Every `let` statement of a parsed program carries a token of the stream. */
  lemma {:induction false} LetTokensFromStream(tokens: seq<Token>, pos: nat)
    requires SemicolonsFollow(tokens)
    ensures forall s <- ParseFrom(tokens, pos).0 | s.LetStatement? :: s.token in tokens
    decreases |tokens| - pos
  {
    if Pull(tokens, pos).tokenType != EndOfFile {
      var attempt := ParseStatementAt(tokens, pos);
      var rest := ParseFrom(tokens, attempt.end + 1).0;
      LetTokensFromStream(tokens, attempt.end + 1);
      ParseInOrder(tokens, pos, attempt);
      if attempt.statement.Some? {
        var s := attempt.statement.value;
        assert ParseFrom(tokens, pos).0 == [s] + rest;
        if s.LetStatement? {
          assert s.token == tokens[pos];
        }
      } else {
        assert ParseFrom(tokens, pos).0 == rest;
      }
    }
  }

  /** The literals of a parsed program: a `let` statement's literal is that
      of a `let` token of the stream (the keyword itself when the lexer made
      the stream), and its identifier's literal is the identifier's value. */
  lemma ParsedLiterals(tokens: seq<Token>, pos: nat)
    requires SemicolonsFollow(tokens)
    requires forall t <- tokens :: t.tokenType == Let ==> t.literal == "let"
    ensures forall s <- ParseFrom(tokens, pos).0 | s.LetStatement? ::
      StatementLiteral(s) == "let" && IdentifierLiteral(s.name) == s.name.value
    ensures ParseFrom(tokens, pos).0 != [] && ParseFrom(tokens, pos).0[0].LetStatement? ==>
      ProgramLiteral(Program(ParseFrom(tokens, pos).0)) == "let"
  {
    LetTokensFromStream(tokens, pos);
    ParsedProgramShape(tokens, pos);
    var program := ParseFrom(tokens, pos).0;
    if program != [] && program[0].LetStatement? {
      assert program[0] in program;
    }
  }

  /** A well-formed `let` parses to one statement with nothing failing: its
      name is the identifier, its token the `let`. */
  lemma LetParses(tokens: seq<Token>, pos: nat)
    requires SemicolonAfter(tokens, pos + 2)
    requires tokens[pos].tokenType == Let && tokens[pos + 1].tokenType == TokenType.Identifier
    requires tokens[pos + 2].tokenType == Assign
    ensures var attempt := ParseStatementAt(tokens, pos);
      attempt.failures == [] && attempt.statement.Some?
      && attempt.statement.value.name == Ast.Identifier(tokens[pos + 1], tokens[pos + 1].literal)
      && attempt.statement.value.token == tokens[pos]
      && tokens[attempt.end].tokenType == Semicolon
  {
    LetOutcome(tokens, pos);
  }

  /** One round of the `ParseProgram` loop. */
  lemma LoopStep(tokens: seq<Token>, pos: nat, statements: seq<Statement>, failures: seq<PeekFailure>,
                 attempt: StatementParse)
    requires SemicolonsFollow(tokens) && Pull(tokens, pos).tokenType != EndOfFile
    requires attempt == ParseStatementAt(tokens, pos)
    ensures ParseLoop(tokens, pos, statements, failures)
         == ParseLoop(tokens, attempt.end + 1, statements + attempt.Parsed(), failures + attempt.failures)
  {
  }

  /** One round of the loop, given what the statement attempt at `pos`
      returned and where it stopped: with the statement and failures added,
      the loop goes on from past the attempt's last token. */
  lemma AdvanceRound(tokens: seq<Token>, pos: nat, statements: seq<Statement>, failures: seq<PeekFailure>,
                     statement: Option<Statement>, end: nat, gathered: seq<Statement>, next: nat)
    requires SemicolonsFollow(tokens) && Pull(tokens, pos).tokenType != EndOfFile
    requires statement == ParseStatementAt(tokens, pos).statement && end == ParseStatementAt(tokens, pos).end
    requires gathered == if statement.Some? then statements + [statement.value] else statements
    requires next == end + 1
    ensures pos < next
    ensures ParseLoop(tokens, next, gathered, failures + ParseStatementAt(tokens, pos).failures)
         == ParseLoop(tokens, pos, statements, failures)
  {
    var attempt := ParseStatementAt(tokens, pos);
    assert gathered == statements + attempt.Parsed() by {
      assert statement.None? ==> statements + attempt.Parsed() == statements;
    }
    LoopStep(tokens, pos, statements, failures, attempt);
  }

  /** The messages of failures recorded in two rounds follow one another. */
  lemma RecordRound(before: seq<string>, failures: seq<PeekFailure>, more: seq<PeekFailure>, errors: seq<string>)
    returns (recorded: seq<PeekFailure>)
    requires errors == before + Messages(failures) + Messages(more)
    ensures recorded == failures + more && errors == before + Messages(recorded)
  {
    recorded := failures + more;
    MessagesAppend(failures, more);
    Associative(before, Messages(failures), Messages(more));
  }

  /** The loop appends the program parsed from `pos` to what it has
      gathered. */
  lemma {:induction false} LoopGathers(tokens: seq<Token>, pos: nat, statements: seq<Statement>,
                                       failures: seq<PeekFailure>)
    requires SemicolonsFollow(tokens)
    ensures ParseLoop(tokens, pos, statements, failures).0 == statements + ParseFrom(tokens, pos).0
    ensures ParseLoop(tokens, pos, statements, failures).1 == failures + ParseFrom(tokens, pos).1
    decreases |tokens| - pos
  {
    if Pull(tokens, pos).tokenType == EndOfFile {
      assert statements + [] == statements && failures + [] == failures;
    } else {
      var attempt := ParseStatementAt(tokens, pos);
      var rest := ParseFrom(tokens, attempt.end + 1);
      LoopStep(tokens, pos, statements, failures, attempt);
      LoopGathers(tokens, attempt.end + 1, statements + attempt.Parsed(), failures + attempt.failures);
      ParseInOrder(tokens, pos, attempt);
      Associative(statements, attempt.Parsed(), rest.0);
      Associative(failures, attempt.failures, rest.1);
    }
  }

  /** Past the end of the stream the parser sees only EndOfFile, so the
      program is empty there. */
  lemma NothingPastTheEnd(tokens: seq<Token>, pos: nat)
    requires SemicolonsFollow(tokens) && pos >= |tokens|
    ensures ParseFrom(tokens, pos) == ([], [])
  {
  }

  /** The tokens the lexer makes of `let x = 5; return 5;`. */
  function LetThenReturnTokens(x: string, five: string): (tokens: seq<Token>)
    ensures |tokens| == 9 && SemicolonsFollow(tokens)
  {
    var tokens := [Token(Let, "let"), Token(TokenType.Identifier, x), Token(Assign, "="), Token(Integer, five),
                   Token(Semicolon, ";"), Token(Return, "return"), Token(Integer, five), Token(Semicolon, ";"),
                   Token(EndOfFile, "")];
    assert SemicolonsFollow(tokens) by {
      forall i | 0 <= i < |tokens|
        ensures Terminates(tokens, i)
      {
        assert tokens[7].tokenType == Semicolon;
      }
    }
    tokens
  }

  /** The `let` of `let x = 5; return 5;` ends at its semicolon. */
  lemma LetThenReturnFirst(x: string, five: string)
    ensures var tokens := LetThenReturnTokens(x, five);
      ParseStatementAt(tokens, 0) == StatementParse(
        Some(LetStatement(tokens[0], Ast.Identifier(tokens[1], x), Ident(Ast.Identifier(tokens[0], Placeholder)))), 4, [])
  {
    var tokens := LetThenReturnTokens(x, five);
    assert tokens[1] == Token(TokenType.Identifier, x);
    assert tokens[2].tokenType != Semicolon && tokens[3].tokenType != Semicolon && tokens[4].tokenType == Semicolon;
    assert NextSemicolon(tokens, 4) == 4;
    assert NextSemicolon(tokens, 3) == 4;
    assert NextSemicolon(tokens, 2) == 4;
  }

  /** The `return` of `let x = 5; return 5;` is the rest of the program. */
  lemma LetThenReturnSecond(x: string, five: string)
    ensures var tokens := LetThenReturnTokens(x, five);
      ParseFrom(tokens, 5) == ([ReturnStatement(tokens[5], Ident(Ast.Identifier(tokens[5], Placeholder)))], [])
  {
    var tokens := LetThenReturnTokens(x, five);
    assert tokens[6].tokenType != Semicolon && tokens[7].tokenType == Semicolon;
    assert NextSemicolon(tokens, 6) == 7;
    assert ParseStatementAt(tokens, 5).end == 7;
    var returnStatement := ReturnStatement(tokens[5], Ident(Ast.Identifier(tokens[5], Placeholder)));
    assert ParseStatementAt(tokens, 5).statement == Some(returnStatement);
    assert ParseFrom(tokens, 8) == ([], []);
    ParseInOrder(tokens, 5, ParseStatementAt(tokens, 5));
    assert [returnStatement] + [] == [returnStatement];
  }

  /** `let x` with no `=` and no semicolon: the parser records the missing
      `=`, steps past the identifier and ends with an empty program. */
  lemma LetWithoutAssign(x: string)
    ensures var tokens := [Token(Let, "let"), Token(TokenType.Identifier, x), Token(EndOfFile, "")];
      SemicolonsFollow(tokens)
      && ParseFrom(tokens, 0) == ([], [PeekFailure(Assign, EndOfFile)])
  {
    var tokens := [Token(Let, "let"), Token(TokenType.Identifier, x), Token(EndOfFile, "")];
    assert !LetSkips(tokens, 0);
    assert ParseStatementAt(tokens, 0) == StatementParse(None, 1, [PeekFailure(Assign, EndOfFile)]);
    assert ParseFrom(tokens, 2) == ([], []);
    ParseInOrder(tokens, 0, ParseStatementAt(tokens, 0));
    assert [PeekFailure(Assign, EndOfFile)] + [] == [PeekFailure(Assign, EndOfFile)];
  }

  /** `let x = 5; return 5;`: two statements, in order, and no errors. */
  lemma LetThenReturn(x: string, five: string)
    ensures var tokens := LetThenReturnTokens(x, five);
      ParseFrom(tokens, 0) == (
        [LetStatement(tokens[0], Ast.Identifier(tokens[1], x), Ident(Ast.Identifier(tokens[0], Placeholder))),
         ReturnStatement(tokens[5], Ident(Ast.Identifier(tokens[5], Placeholder)))], [])
  {
    var tokens := LetThenReturnTokens(x, five);
    var letStatement := LetStatement(tokens[0], Ast.Identifier(tokens[1], x), Ident(Ast.Identifier(tokens[0], Placeholder)));
    var returnStatement := ReturnStatement(tokens[5], Ident(Ast.Identifier(tokens[5], Placeholder)));
    LetThenReturnFirst(x, five);
    LetThenReturnSecond(x, five);
    ParseInOrder(tokens, 0, ParseStatementAt(tokens, 0));
    assert [letStatement] + [returnStatement] == [letStatement, returnStatement];
  }

  // ------------------------------------------------------------ the parser

  /** `Parser.Impl`: the current and peek tokens, how many tokens have been
      pulled, and the error list. */
  class Impl {
    const tokens: seq<Token>
    var pulled: nat
    var currentToken: Token
    var peekToken: Token
    var errors: seq<string>

    /** The current and peek tokens are the last two pulled. */
    predicate Valid()
      reads this
    {
      2 <= pulled && currentToken == Pull(tokens, pulled - 2) && peekToken == Pull(tokens, pulled - 1)
    }

    /** The stream position of the current token. */
    function Position(): nat
      reads this
      requires Valid()
    {
      pulled - 2
    }

    /** Pulls two tokens, into current and peek. */
    constructor (tokens: seq<Token>, errors: seq<string>)
      ensures Valid() && this.tokens == tokens && Position() == 0 && this.errors == errors
    {
      this.tokens := tokens;
      this.errors := errors;
      pulled := 0;
      currentToken := Token(EndOfFile, "");
      peekToken := Pull(tokens, 0);
      pulled := 1;
      new;
      NextToken();
    }

    method PullToken() returns (t: Token)
      modifies this
      ensures t == Pull(tokens, old(pulled)) && pulled == old(pulled) + 1
      ensures currentToken == old(currentToken) && peekToken == old(peekToken) && errors == old(errors)
    {
      t := Pull(tokens, pulled);
      pulled := pulled + 1;
    }

    method NextToken()
      requires 1 <= pulled && peekToken == Pull(tokens, pulled - 1)
      modifies this
      ensures Valid() && pulled == old(pulled) + 1 && errors == old(errors)
      ensures currentToken == old(peekToken)
    {
      currentToken := peekToken;
      peekToken := PullToken();
    }

    function CurrentTokenIs(t: TokenType): (b: bool)
      reads this
      ensures b <==> currentToken.tokenType == t
    {
      currentToken.tokenType == t
    }

    function PeekTokenIs(t: TokenType): (b: bool)
      reads this
      ensures b <==> peekToken.tokenType == t
    {
      peekToken.tokenType == t
    }

    /** Advances past the peek token only when it has the expected type;
        otherwise records why and stays. */
    method ExpectPeek(t: TokenType) returns (matched: bool)
      requires Valid()
      modifies this
      ensures Valid() && matched == (old(peekToken).tokenType == t)
      ensures matched ==> Position() == old(Position()) + 1 && errors == old(errors)
      ensures !matched ==> (Position() == old(Position())
        && errors == old(errors) + [Message(PeekFailure(t, old(peekToken).tokenType))])
    {
      if PeekTokenIs(t) {
        NextToken();
        return true;
      }
      PeekError(t);
      return false;
    }

    method PeekError(t: TokenType)
      modifies this
      ensures errors == old(errors) + [Message(PeekFailure(t, peekToken.tokenType))]
      ensures pulled == old(pulled) && currentToken == old(currentToken) && peekToken == old(peekToken)
    {
      errors := errors + [Message(PeekFailure(t, peekToken.tokenType))];
    }

    /** The skip loop shared by both statements: forward to the next semicolon. */
    method SkipToSemicolon()
      requires Valid() && exists j :: Position() <= j < |tokens| && tokens[j].tokenType == Semicolon
      modifies this
      ensures Valid() && errors == old(errors)
      ensures Position() == NextSemicolon(tokens, old(Position()))
    {
      ghost var target := NextSemicolon(tokens, Position());
      NextSemicolonIsFirst(tokens, Position());
      while currentToken.tokenType != Semicolon
        invariant Valid() && errors == old(errors)
        invariant old(Position()) <= Position() <= target
        invariant NextSemicolon(tokens, Position()) == target
        decreases target - Position()
      {
        NextToken();
      }
    }

    method ParseLetStatement() returns (s: Option<Statement>)
      requires Valid() && LetTerminates(tokens, Position())
      modifies this
      ensures Valid()
      ensures s == ParseLetAt(tokens, old(Position())).statement
      ensures Position() == ParseLetAt(tokens, old(Position())).end
      ensures errors == old(errors) + Messages(ParseLetAt(tokens, old(Position())).failures)
    {
      var token := currentToken;
      var matched := ExpectPeek(TokenType.Identifier);
      if !matched {
        assert Messages([PeekFailure(TokenType.Identifier, Pull(tokens, old(Position()) + 1).tokenType)])
            == [Message(PeekFailure(TokenType.Identifier, Pull(tokens, old(Position()) + 1).tokenType))];
        return None;
      }
      var name := Ast.Identifier(currentToken, currentToken.literal);
      matched := ExpectPeek(Assign);
      if !matched {
        assert Messages([PeekFailure(Assign, Pull(tokens, old(Position()) + 2).tokenType)])
            == [Message(PeekFailure(Assign, Pull(tokens, old(Position()) + 2).tokenType))];
        return None;
      }
      var value := Ident(Ast.Identifier(token, Placeholder));
      SkipToSemicolon();
      s := Some(LetStatement(token, name, value));
    }

    method ParseReturnStatement() returns (s: Option<Statement>)
      requires Valid() && SemicolonAfter(tokens, Position())
      modifies this
      ensures Valid()
      ensures s == ParseReturnAt(tokens, old(Position())).statement
      ensures Position() == ParseReturnAt(tokens, old(Position())).end
      ensures errors == old(errors) + Messages(ParseReturnAt(tokens, old(Position())).failures)
    {
      var token := currentToken;
      NextToken();
      var value := Ast.Ident(Ast.Identifier(token, Placeholder));
      SkipToSemicolon();
      s := Some(ReturnStatement(token, value));
    }

    method ParseStatement() returns (s: Option<Statement>)
      requires Valid() && Terminates(tokens, Position())
      modifies this
      ensures Valid()
      ensures s == ParseStatementAt(tokens, old(Position())).statement
      ensures Position() == ParseStatementAt(tokens, old(Position())).end
      ensures errors == old(errors) + Messages(ParseStatementAt(tokens, old(Position())).failures)
    {
      if currentToken.tokenType == Let {
        assert ParseStatementAt(tokens, Position()) == ParseLetAt(tokens, Position());
        s := ParseLetStatement();
      } else if currentToken.tokenType == Return {
        assert ParseStatementAt(tokens, Position()) == ParseReturnAt(tokens, Position());
        s := ParseReturnStatement();
      } else {
        s := None;
      }
    }

    /** One round of the `ParseProgram` loop: parse a statement, keep it if
        there is one, and step past its last token. */
    method ParseAndAdvance(statements: seq<Statement>, ghost failures: seq<PeekFailure>, ghost before: seq<string>)
      returns (gathered: seq<Statement>, ghost recorded: seq<PeekFailure>)
      requires Valid() && SemicolonsFollow(tokens) && currentToken.tokenType != EndOfFile
      requires errors == before + Messages(failures)
      modifies this
      ensures Valid() && old(Position()) < Position()
      ensures ParseLoop(tokens, Position(), gathered, recorded) == ParseLoop(tokens, old(Position()), statements, failures)
      ensures errors == before + Messages(recorded)
    {
      ghost var pos := Position();
      assert Terminates(tokens, pos);
      var statement := ParseStatement();
      ghost var end := Position();
      gathered := if statement.Some? then statements + [statement.value] else statements;
      recorded := RecordRound(before, failures, ParseStatementAt(tokens, pos).failures, errors);
      NextToken();
      AdvanceRound(tokens, pos, statements, failures, statement, end, gathered, Position());
    }

    method ParseProgram() returns (program: Program)
      requires Valid() && SemicolonsFollow(tokens)
      modifies this
      ensures program.statements == ParseFrom(tokens, old(Position())).0
      ensures errors == old(errors) + Messages(ParseFrom(tokens, old(Position())).1)
    {
      var statements: seq<Statement> := [];
      ghost var failures: seq<PeekFailure> := [];
      ghost var start := Position();
      while currentToken.tokenType != EndOfFile
        invariant Valid()
        invariant ParseLoop(tokens, Position(), statements, failures) == ParseLoop(tokens, start, [], [])
        invariant errors == old(errors) + Messages(failures)
        decreases |tokens| - Position()
      {
        statements, failures := ParseAndAdvance(statements, failures, old(errors));
      }
      assert ParseLoop(tokens, Position(), statements, failures) == (statements, failures);
      ghost var parsed := ParseFrom(tokens, start);
      LoopGathers(tokens, start, [], []);
      assert [] + parsed.0 == parsed.0 && [] + parsed.1 == parsed.1;
      assert statements == parsed.0 && failures == parsed.1;
      program := Program(statements);
    }
  }

  /** `class Parser(Lexer lexer)`. */
  class Parser {
    const lexer: Lexing.Lexer

    constructor (lexer: Lexing.Lexer)
      ensures this.lexer == lexer
    {
      this.lexer := lexer;
    }

    /** `ParseProgram`: the program and the errors, from the lexer's tokens. */
    method ParseProgram() returns (program: Program, errors: seq<string>)
      requires SemicolonsFollow(Lexing.Lex(lexer.classes, lexer.input, 0))
      ensures program.statements == ParseFrom(Lexing.Lex(lexer.classes, lexer.input, 0), 0).0
      ensures errors == Messages(ParseFrom(Lexing.Lex(lexer.classes, lexer.input, 0), 0).1)
      ensures forall s <- program.statements :: WellParsed(s)
    {
      var tokens := lexer.GetTokens();
      var impl := new Impl(tokens, []);
      program := impl.ParseProgram();
      errors := impl.errors;
      ParsedProgramShape(tokens, 0);
    }
  }
}
