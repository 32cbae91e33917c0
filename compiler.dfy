/** The bytecode compiler: a post-order walk over the syntax tree that
    appends instructions to an instruction buffer and integer constants to a
    constant pool, both append-only. It handles programs, expression
    statements, infix expressions, integer literals and booleans; every other
    node kind compiles to nothing. */
module Compiler {
  import opened Wrappers
  import opened Sequences
  import opened Runtime
  import opened Ast
  import opened Objects
  import opened Code

  /** `record ByteCode(Instructions, Constants)`: the buffer and the pool. */
  datatype ByteCode = ByteCode(instructions: seq<byte>, constants: seq<Obj>)

  /** Compilation only ever appends: the old buffer and pool are prefixes of the new. */
  predicate Extends(before: ByteCode, after: ByteCode) {
    before.instructions <= after.instructions && before.constants <= after.constants
  }

  /** The opcode an infix operator compiles to; `<` shares `>`'s opcode. */
  function InfixOpcode(operator: string): Option<Opcode> {
    if operator == "+" then Some(Add)
    else if operator == "-" then Some(Sub)
    else if operator == "*" then Some(Mul)
    else if operator == "/" then Some(Div)
    else if operator == "==" then Some(Equal)
    else if operator == "!=" then Some(NotEqual)
    else if operator == ">" || operator == "<" then Some(GreaterThan)
    else None
  }

  /* Constant indices are C# `int`s, and a .NET list holds fewer than 2^31
     elements, so the pool never outgrows an `int` operand. The compile
     functions ask for room for every integer literal they may add. */

  /** The integer literals the compiler can reach in an expression. */
  function Literals(e: Expression): nat {
    match e
    case IntegerLiteral(_) => 1
    case InfixExpression(left, _, right) => Literals(left) + Literals(right)
    case _ => 0
  }

  function StatementLiterals(s: Statement): nat {
    match s
    case ExpressionStatement(_, Some(e)) => Literals(e)
    case _ => 0
  }

  function SeqLiterals(ss: seq<Statement>): nat
    decreases |ss|
  {
    if ss == [] then 0 else StatementLiterals(ss[0]) + SeqLiterals(ss[1..])
  }

  function NodeLiterals(node: Node): nat {
    match node
    case ProgramNode(p) => SeqLiterals(p.statements)
    case StatementNode(s) => StatementLiterals(s)
    case ExpressionNode(e) => Literals(e)
  }

  /** `Emit` on a bytecode value: the offset of the new instruction and the result. */
  function EmitIn(b: ByteCode, op: Opcode, operands: seq<int32>): (int, ByteCode) {
    (|b.instructions|, b.(instructions := b.instructions + Make(op, operands)))
  }

  /** The compiled form of an expression: the error, if any, and the buffer
      and pool afterwards. The operands of `<` are compiled in swapped order. */
  function CompileExpression(e: Expression, b: ByteCode): (r: (Option<string>, ByteCode))
    requires |b.constants| + Literals(e) <= MaxInt32
    ensures Extends(b, r.1) && |r.1.constants| <= |b.constants| + Literals(e)
    decreases e
  {
    match e
    case IntegerLiteral(v) =>
      var index := |b.constants|;
      var b1 := b.(constants := b.constants + [Integer(v)]);
      (None, EmitIn(b1, Constant, [index]).1)
    case BooleanLiteral(truth) =>
      (None, EmitIn(b, if truth then True else False, []).1)
    case InfixExpression(left, operator, right) =>
      var first := if operator == "<" then right else left;
      var second := if operator == "<" then left else right;
      var (error1, b1) := CompileExpression(first, b);
      if error1.Some? then (error1, b1)
      else
        var (error2, b2) := CompileExpression(second, b1);
        if error2.Some? then (error2, b2)
        else (match InfixOpcode(operator)
          case Some(op) => (None, EmitIn(b2, op, []).1)
          case None => (Some("ERROR: unknown operator " + operator), b2))
    case _ => (None, b)
  }

  /** The compiled form of a statement: an expression statement is its
      expression followed by Pop; other statements compile to nothing. */
  function CompileStatement(s: Statement, b: ByteCode): (r: (Option<string>, ByteCode))
    requires |b.constants| + StatementLiterals(s) <= MaxInt32
    ensures Extends(b, r.1) && |r.1.constants| <= |b.constants| + StatementLiterals(s)
  {
    match s
    case ExpressionStatement(_, None) => (Some("No expression in the expressions statement"), b)
    case ExpressionStatement(_, Some(e)) =>
      var (error, b1) := CompileExpression(e, b);
      if error.Some? then (error, b1) else (None, EmitIn(b1, Pop, []).1)
    case _ => (None, b)
  }

  /** The statements in order, up to and including the first that fails. */
  function CompileStatements(ss: seq<Statement>, b: ByteCode): (r: (Option<string>, ByteCode))
    requires |b.constants| + SeqLiterals(ss) <= MaxInt32
    ensures Extends(b, r.1) && |r.1.constants| <= |b.constants| + SeqLiterals(ss)
    decreases |ss|
  {
    if ss == [] then (None, b)
    else
      var (error, b1) := CompileStatement(ss[0], b);
      if error.Some? then (error, b1) else CompileStatements(ss[1..], b1)
  }

  /** `Compile`: the switch over the node kinds. */
  function CompileNode(node: Node, b: ByteCode): (r: (Option<string>, ByteCode))
    requires |b.constants| + NodeLiterals(node) <= MaxInt32
  {
    match node
    case ProgramNode(p) => CompileStatements(p.statements, b)
    case StatementNode(s) => CompileStatement(s, b)
    case ExpressionNode(e) => CompileExpression(e, b)
  }

  // ------------------------------------------------------------ termination measure

  function Size(e: Expression): nat {
    match e
    case InfixExpression(left, _, right) => 1 + Size(left) + Size(right)
    case _ => 1
  }

  /** Programs hold statements, statements hold expressions: the level falls
      at each hop from a program loop to a statement to an expression. */
  function Level(node: Node): nat {
    match node
    case ProgramNode(_) => 2
    case StatementNode(_) => 1
    case ExpressionNode(_) => 0
  }

  function NodeSize(node: Node): nat {
    match node
    case ProgramNode(_) => 0
    case StatementNode(s) => if s.ExpressionStatement? && s.expression.Some? then 1 + Size(s.expression.value) else 1
    case ExpressionNode(e) => Size(e)
  }

  // ------------------------------------------------------------ the compiler

  /** `class Compiler`: the instruction buffer and the constant pool are
      lists that the compile methods append to. */
  class Compiler {
    var instructions: seq<byte>
    var constants: seq<Obj>

    constructor ()
      ensures GetByteCode() == ByteCode([], [])
    {
      instructions := [];
      constants := [];
    }

    /** `GetByteCode`. */
    function GetByteCode(): ByteCode
      reads this
    {
      ByteCode(instructions, constants)
    }

    method Compile(node: Node) returns (error: Option<string>)
      requires |constants| + NodeLiterals(node) <= MaxInt32
      modifies this
      ensures (error, GetByteCode()) == CompileNode(node, old(GetByteCode()))
      decreases Level(node), NodeSize(node), 1
    {
      match node
      case ProgramNode(p) =>
        error := CompileProgram(p);
      case StatementNode(s) =>
        if s.ExpressionStatement? {
          error := CompileExpressionStatement(s);
        } else {
          error := None;
        }
      case ExpressionNode(e) =>
        if e.InfixExpression? {
          error := CompileInfixExpression(e);
        } else if e.IntegerLiteral? {
          error := CompileIntegerLiteral(e);
        } else if e.BooleanLiteral? {
          error := CompileBoolean(e);
        } else {
          error := None;
        }
    }

    method CompileProgram(p: Program) returns (error: Option<string>)
      requires |constants| + SeqLiterals(p.statements) <= MaxInt32
      modifies this
      ensures (error, GetByteCode()) == CompileStatements(p.statements, old(GetByteCode()))
      decreases 2, 0, 0
    {
      var i := 0;
      while i < |p.statements|
        invariant 0 <= i <= |p.statements|
        invariant |constants| + SeqLiterals(p.statements[i..]) <= MaxInt32
        invariant CompileStatements(p.statements, old(GetByteCode()))
               == CompileStatements(p.statements[i..], GetByteCode())
      {
        var rest := p.statements[i..];
        assert rest[1..] == p.statements[i + 1..];
        error := Compile(StatementNode(p.statements[i]));
        if error.Some? {
          return;
        }
        i := i + 1;
      }
      return None;
    }

    method CompileExpressionStatement(s: Statement) returns (error: Option<string>)
      requires s.ExpressionStatement?
      requires |constants| + StatementLiterals(s) <= MaxInt32
      modifies this
      ensures (error, GetByteCode()) == CompileStatement(s, old(GetByteCode()))
      decreases 1, NodeSize(StatementNode(s)), 0
    {
      if s.expression.None? {
        return Some("No expression in the expressions statement");
      }
      error := Compile(ExpressionNode(s.expression.value));
      if error.Some? {
        return;
      }
      var _ := Emit(Pop, []);
    }

    method CompileInfixExpression(e: Expression) returns (error: Option<string>)
      requires e.InfixExpression?
      requires |constants| + Literals(e) <= MaxInt32
      modifies this
      ensures (error, GetByteCode()) == CompileExpression(e, old(GetByteCode()))
      decreases 0, Size(e), 0
    {
      var left, right := e.left, e.right;
      if e.operator == "<" {
        left, right := e.right, e.left;
      }
      error := Compile(ExpressionNode(left));
      if error.Some? {
        return;
      }
      error := Compile(ExpressionNode(right));
      if error.Some? {
        return;
      }
      match InfixOpcode(e.operator)
      case Some(op) =>
        var _ := Emit(op, []);
      case None =>
        error := Some("ERROR: unknown operator " + e.operator);
    }

    method CompileIntegerLiteral(e: Expression) returns (error: Option<string>)
      requires e.IntegerLiteral?
      requires |constants| < MaxInt32
      modifies this
      ensures (error, GetByteCode()) == CompileExpression(e, old(GetByteCode()))
    {
      var index := AddConstant(Integer(e.value));
      var _ := Emit(Constant, [index]);
      return None;
    }

    method CompileBoolean(e: Expression) returns (error: Option<string>)
      requires e.BooleanLiteral?
      requires |constants| <= MaxInt32
      modifies this
      ensures (error, GetByteCode()) == CompileExpression(e, old(GetByteCode()))
    {
      var op := if e.truth then True else False;
      var _ := Emit(op, []);
      return None;
    }

    /** `AddConstant`: the new constant's index in the pool. */
    method AddConstant(value: Obj) returns (index: int32)
      requires |constants| < MaxInt32
      modifies this
      ensures constants == old(constants) + [value] && instructions == old(instructions)
      ensures index == |constants| - 1
    {
      constants := constants + [value];
      index := |constants| - 1;
    }

    /** `Emit`: the offset at which the new instruction starts. */
    method Emit(op: Opcode, operands: seq<int32>) returns (position: int)
      modifies this
      ensures (position, GetByteCode()) == EmitIn(old(GetByteCode()), op, operands)
    {
      var ins := Make(op, operands);
      position := AddInstruction(ins);
    }

    /** `AddInstruction`: appends the bytes and returns the old length. */
    method AddInstruction(ins: seq<byte>) returns (position: int)
      modifies this
      ensures position == |old(instructions)|
      ensures instructions == old(instructions) + ins && constants == old(constants)
    {
      position := |instructions|;
      instructions := instructions + ins;
    }
  }

  // ------------------------------------------------------------ properties

  /** `a < b` is compiled as `b > a`: the same bytes and the same constants. */
  lemma LessThanSwaps(a: Expression, c: Expression, b: ByteCode)
    requires |b.constants| + Literals(a) + Literals(c) <= MaxInt32
    ensures CompileExpression(InfixExpression(a, "<", c), b) == CompileExpression(InfixExpression(c, ">", a), b)
  {
    var (error1, b1) := CompileExpression(c, b);
    var swapped := if error1.Some? then (error1, b1)
      else var (error2, b2) := CompileExpression(a, b1);
        if error2.Some? then (error2, b2) else (None, EmitIn(b2, GreaterThan, []).1);
    assert ">" != "<" by {
      assert ">"[0] != "<"[0];
    }
    assert CompileExpression(InfixExpression(a, "<", c), b) == swapped by {
      assert InfixOpcode("<") == Some(GreaterThan);
    }
    assert CompileExpression(InfixExpression(c, ">", a), b) == swapped by {
      assert InfixOpcode(">") == Some(GreaterThan);
    }
  }

  /** The constants an expression adds: its integer literals, in the order
      the compiler reaches them (the right operand of `<` first). */
  function LiteralValues(e: Expression): (r: seq<Obj>)
    ensures |r| == Literals(e)
  {
    match e
    case IntegerLiteral(v) => [Integer(v)]
    case InfixExpression(left, operator, right) =>
      if operator == "<" then LiteralValues(right) + LiteralValues(left)
      else LiteralValues(left) + LiteralValues(right)
    case _ => []
  }

  /** An expression that compiles without error appends exactly its integer
      literals to the pool, so every constant is an Integer. */
  lemma {:induction false} PoolHoldsLiterals(e: Expression, b: ByteCode)
    requires |b.constants| + Literals(e) <= MaxInt32
    ensures var (error, after) := CompileExpression(e, b);
      error.None? ==> after.constants == b.constants + LiteralValues(e)
  {
    match e
    case InfixExpression(left, operator, right) =>
      var first := if operator == "<" then right else left;
      var second := if operator == "<" then left else right;
      PoolHoldsLiterals(first, b);
      var (error1, b1) := CompileExpression(first, b);
      PoolHoldsLiterals(second, b1);
      var (error2, b2) := CompileExpression(second, b1);
      if error1.None? && error2.None? {
        assert LiteralValues(e) == LiteralValues(first) + LiteralValues(second);
        Associative(b.constants, LiteralValues(first), LiteralValues(second));
        assert CompileExpression(e, b).1.constants == b2.constants;
      }
    case _ =>
  }

  /** An integer literal adds one constant and emits `Constant` with the
      constant's index, the pool's size before: `[0, index / 256, index % 256]`
      while the index fits the two-byte operand. */
  lemma IntegerLiteralAddsConstant(v: int64, b: ByteCode)
    requires |b.constants| < MaxInt32
    ensures var index := |b.constants|;
      CompileExpression(IntegerLiteral(v), b)
        == (None, ByteCode(b.instructions + Make(Constant, [index]), b.constants + [Integer(v)]))
    ensures |b.constants| < 0x1_0000 ==>
      CompileExpression(IntegerLiteral(v), b).1.instructions
        == b.instructions + [Constant, |b.constants| / 256, |b.constants| % 256]
  {
    if |b.constants| < 0x1_0000 {
      MakeConstant(|b.constants|);
    }
  }

  /** A boolean emits exactly one byte, True or False, and no constant. */
  lemma BooleanEmitsOneByte(truth: bool, b: ByteCode)
    requires |b.constants| <= MaxInt32
    ensures CompileExpression(BooleanLiteral(truth), b)
      == (None, ByteCode(b.instructions + [if truth then True else False], b.constants))
  {
    MakeBare(if truth then True else False, []);
  }

  /** An expression statement is its expression's code followed by exactly
      one Pop; a statement without an expression is an error that emits nothing. */
  lemma ExpressionStatementPops(tok: Tokens.Token, e: Expression, b: ByteCode)
    requires |b.constants| + Literals(e) <= MaxInt32
    ensures var (error, b1) := CompileExpression(e, b);
      error.None? ==>
        CompileStatement(ExpressionStatement(tok, Some(e)), b) == (None, ByteCode(b1.instructions + [Pop], b1.constants))
    ensures CompileStatement(ExpressionStatement(tok, None), b)
      == (Some("No expression in the expressions statement"), b)
  {
    MakeBare(Pop, []);
  }

  /** An unknown operator is an error, and the code already emitted for both
      operands stays in the buffer. */
  lemma UnknownOperatorKeepsOperands(left: Expression, operator: string, right: Expression, b: ByteCode)
    requires InfixOpcode(operator).None?
    requires |b.constants| + Literals(left) + Literals(right) <= MaxInt32
    requires CompileExpression(left, b).0.None?
    requires CompileExpression(right, CompileExpression(left, b).1).0.None?
    ensures CompileExpression(InfixExpression(left, operator, right), b)
      == (Some("ERROR: unknown operator " + operator), CompileExpression(right, CompileExpression(left, b).1).1)
  {
    assert operator != "<";
  }

  /** Node kinds the switch does not handle compile to nothing, without error. */
  lemma UnhandledNodesEmitNothing(e: Expression, s: Statement, b: ByteCode)
    requires !(e.InfixExpression? || e.IntegerLiteral? || e.BooleanLiteral?)
    requires !s.ExpressionStatement?
    requires |b.constants| <= MaxInt32
    ensures CompileNode(ExpressionNode(e), b) == (None, b)
    ensures CompileNode(StatementNode(s), b) == (None, b)
  {
  }

  /** A program compiles its statements in order and stops at the first
      error: compiling two runs of statements is compiling the first, then,
      only if it succeeded, the second from where the first left off. */
  lemma {:induction false} StatementsCompose(ss1: seq<Statement>, ss2: seq<Statement>, b: ByteCode)
    requires |b.constants| + SeqLiterals(ss1) + SeqLiterals(ss2) <= MaxInt32
    ensures SeqLiterals(ss1 + ss2) == SeqLiterals(ss1) + SeqLiterals(ss2)
    ensures var (error1, b1) := CompileStatements(ss1, b);
      CompileStatements(ss1 + ss2, b)
        == if error1.Some? then (error1, b1) else CompileStatements(ss2, b1)
    decreases |ss1|
  {
    if ss1 == [] {
      assert ss1 + ss2 == ss2;
    } else {
      assert (ss1 + ss2)[0] == ss1[0] && (ss1 + ss2)[1..] == ss1[1..] + ss2;
      var b1 := CompileStatement(ss1[0], b).1;
      StatementsCompose(ss1[1..], ss2, b1);
    }
  }

  /** The two literals of `1 + 2` go to the pool in order. */
  lemma OneThenTwo()
    ensures CompileExpression(IntegerLiteral(1), ByteCode([], [])) == (None, ByteCode([Constant, 0, 0], [Integer(1)]))
    ensures CompileExpression(IntegerLiteral(2), ByteCode([Constant, 0, 0], [Integer(1)]))
         == (None, ByteCode([Constant, 0, 0, Constant, 0, 1], [Integer(1), Integer(2)]))
  {
    IntegerLiteralAddsConstant(1, ByteCode([], []));
    assert [] + [Constant, 0 / 256, 0 % 256] == [Constant, 0, 0];
    assert [] + [Integer(1)] == [Integer(1)];
    IntegerLiteralAddsConstant(2, ByteCode([Constant, 0, 0], [Integer(1)]));
    assert [Constant, 0, 0] + [Constant, 1 / 256, 1 % 256] == [Constant, 0, 0, Constant, 0, 1];
    assert [Integer(1)] + [Integer(2)] == [Integer(1), Integer(2)];
  }

  /** `1 + 2;` compiles to `Constant 0`, `Constant 1`, `Add`, `Pop` with the
      pool `[1, 2]`. */
  lemma OnePlusTwo(tok: Tokens.Token)
    ensures var sum := InfixExpression(IntegerLiteral(1), "+", IntegerLiteral(2));
      var program := Program([ExpressionStatement(tok, Some(sum))]);
      NodeLiterals(ProgramNode(program)) == 2
      && CompileNode(ProgramNode(program), ByteCode([], []))
        == (None, ByteCode([Constant, 0, 0, Constant, 0, 1, Add, Pop], [Integer(1), Integer(2)]))
  {
    var sum := InfixExpression(IntegerLiteral(1), "+", IntegerLiteral(2));
    var ss := [ExpressionStatement(tok, Some(sum))];
    assert ss[1..] == [];
    assert SeqLiterals(ss) == 2;
    OneThenTwo();
    var pool := [Integer(1), Integer(2)];
    assert [Constant, 0, 0, Constant, 0, 1] + [Add] == [Constant, 0, 0, Constant, 0, 1, Add];
    assert [Constant, 0, 0, Constant, 0, 1, Add] + [Pop] == [Constant, 0, 0, Constant, 0, 1, Add, Pop];
    MakeBare(Add, []);
    MakeBare(Pop, []);
    assert InfixOpcode("+") == Some(Add);
    assert CompileExpression(sum, ByteCode([], [])) == (None, ByteCode([Constant, 0, 0, Constant, 0, 1, Add], pool));
    assert CompileStatement(ss[0], ByteCode([], [])) == (None, ByteCode([Constant, 0, 0, Constant, 0, 1, Add, Pop], pool));
    assert CompileStatements(ss, ByteCode([], [])) == CompileStatement(ss[0], ByteCode([], []));
  }
}
