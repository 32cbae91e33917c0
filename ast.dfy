/** The syntax tree: immutable records, so a node's children never change
    after construction. Ast.cs shows Program, LetStatement and Identifier; the
    other node kinds the evaluator, the compiler and the macro pass switch on
    are given the fields those files read. */
module Ast {
  import opened Wrappers
  import opened Runtime
  import opened Tokens

  /** `record Identifier(Token Token, string Value)`. */
  datatype Identifier = Identifier(token: Token, value: string)

  datatype Expression =
    | Ident(id: Identifier)
    | IntegerLiteral(value: int64)
    | BooleanLiteral(truth: bool)
    | PrefixExpression(operator: string, right: Expression)
    | InfixExpression(left: Expression, operator: string, right: Expression)
    | IfExpression(condition: Expression, consequence: Block, alternative: Option<Block>)
    | MacroLiteral(parameters: seq<Identifier>, body: Block)
    /** Any node kind that no modelled switch handles (function literals, calls, ...). */
    | OtherExpression

  datatype Statement =
    /** `record LetStatement(Token Token, Identifier Name, IExpression Value)`. */
    | LetStatement(token: Token, name: Identifier, value: Expression)
    | ReturnStatement(token: Token, returnValue: Expression)
    /** The expression may be missing (C# null). */
    | ExpressionStatement(token: Token, expression: Option<Expression>)
    | BlockStatement(block: Block)

  datatype Block = Block(token: Token, statements: seq<Statement>)

  /** `record Program(ImmutableList<IStatement> Statements)`. */
  datatype Program = Program(statements: seq<Statement>)

  /** Any node the evaluator or the compiler can be handed (C# `INode`). */
  datatype Node =
    | ProgramNode(program: Program)
    | StatementNode(statement: Statement)
    | ExpressionNode(expression: Expression)

  /** `GetTokenLiteral` of a statement: the literal of its token. */
  function StatementLiteral(s: Statement): string {
    match s
    case LetStatement(token, _, _) => token.literal
    case ReturnStatement(token, _) => token.literal
    case ExpressionStatement(token, _) => token.literal
    case BlockStatement(block) => block.token.literal
  }

  /** `Program.GetTokenLiteral`: the literal of the first statement, or the
      empty string for a program without statements. */
  function ProgramLiteral(p: Program): string {
    if p.statements == [] then "" else StatementLiteral(p.statements[0])
  }

  /** `Identifier.GetTokenLiteral`. */
  function IdentifierLiteral(id: Identifier): string {
    id.token.literal
  }
}
