/** The tree-walking evaluator: a recursive interpreter over integers,
    booleans, prefix and infix operators, `if` and `return`, in which an
    Error object short-circuits every enclosing construct. */
module Evaluation {
  import opened Wrappers
  import opened Runtime
  import opened Ast
  import opened Objects

  /* Identity. The evaluator's booleans are the two shared objects `_true`
     and `_false`, its nulls the shared `_null`; every other object it
     produces is allocated by the evaluation that yields it. So two operand
     objects are the same reference exactly when both are the same boolean
     or both are null. */

  /** `left == right` on two operands of an infix expression (reference equality). */
  predicate SameObject(left: Obj, right: Obj) {
    (left.Boolean? && right.Boolean? && left.boolValue == right.boolValue) || (left.Null? && right.Null?)
  }

  /** The objects the evaluator's node kinds produce: integers, booleans,
      null, errors, and returned values wrapped any number of times. */
  predicate Produced(o: Obj) {
    match o
    case Integer(_) => true
    case Boolean(_) => true
    case Null => true
    case Error(_) => true
    case ReturnValue(inner) => Produced(inner)
    case _ => false
  }

  /** What an evaluation can end in: a produced object, or one of the two
      exceptions of `long` division, the only ones the evaluator raises. */
  predicate Evaluated(r: Result<Obj, Exception>) {
    if r.Success? then Produced(r.value) else r.error == DivideByZero || r.error == Overflow
  }

  /** `IsTruthy`: Null is false, a Boolean is its value, anything else is true. */
  predicate IsTruthy(o: Obj) {
    match o
    case Null => false
    case Boolean(b) => b
    case _ => true
  }

  /** `EvaluateBangOperatorExpression`. */
  function Bang(right: Obj): (r: Obj)
    ensures r.Boolean?
  {
    match right
    case Boolean(b) => Boolean(!b)
    case Null => Boolean(true)
    case _ => Boolean(false)
  }

  /** `!` is the negation of truthiness: true, false, null and every other
      object map to false, true, true and false. */
  lemma BangIsNotTruthy(o: Obj)
    ensures Bang(o) == Boolean(!IsTruthy(o))
    ensures Bang(Bang(o)) == Boolean(IsTruthy(o))
  {
  }

  /** `EvaluateMinusPrefixOperatorExpression`: C#'s unchecked `-` on a long. */
  function Negate(right: Obj): (r: Obj)
    ensures right.Integer? ==> r.Integer? && (r.intValue + right.intValue) % Two64 == 0
    ensures right.Integer? && right.intValue != MinInt64 ==> r == Integer(-right.intValue)
    ensures right.Integer? && right.intValue == MinInt64 ==> r == right
    ensures !right.Integer? ==> r == Error("unknown operator: -" + TypeName(TypeOf(right)))
  {
    match right
    case Integer(v) => Integer(Wrap64(-(v as int)))
    case _ => Error("unknown operator: -" + TypeName(TypeOf(right)))
  }

  /** `EvalPrefixExpression`. */
  function PrefixOperation(operator: string, right: Obj): (r: Obj)
    ensures operator != "!" && operator != "-" ==>
      r == Error("unknown operator: " + operator + " " + TypeName(TypeOf(right)))
  {
    if operator == "!" then Bang(right)
    else if operator == "-" then Negate(right)
    else Error("unknown operator: " + operator + " " + TypeName(TypeOf(right)))
  }

  function InfixError(kind: string, operator: string, left: Obj, right: Obj): Obj {
    Error(kind + TypeName(TypeOf(left)) + " " + operator + " " + TypeName(TypeOf(right)))
  }

  /** `EvalIntegerInfixExpression`: wrap-around `+ - *`, truncating `/`
      (which throws on a zero divisor and on long.MinValue / -1), and the
      four comparisons. */
  function IntegerInfix(operator: string, left: int64, right: int64): (r: Result<Obj, Exception>)
    ensures r.Failure? <==> operator == "/" && (right == 0 || (left == MinInt64 && right == -1))
  {
    if operator == "+" then Success(Integer(Wrap64(left as int + right as int)))
    else if operator == "-" then Success(Integer(Wrap64(left as int - right as int)))
    else if operator == "*" then Success(Integer(Wrap64(left as int * right as int)))
    else if operator == "/" then
      var q :- Div64(left, right);
      Success(Integer(q))
    else if operator == "<" then Success(Boolean(left < right))
    else if operator == ">" then Success(Boolean(left > right))
    else if operator == "==" then Success(Boolean(left == right))
    else if operator == "!=" then Success(Boolean(left != right))
    else Success(InfixError("unknown operator: ", operator, Integer(left), Integer(right)))
  }

  /** `EvalInfixExpression`. */
  function InfixOperation(operator: string, left: Obj, right: Obj): (r: Result<Obj, Exception>)
    ensures r.Failure? ==> left.Integer? && right.Integer?
    ensures !(left.Integer? && right.Integer?) && operator == "==" ==> r == Success(Boolean(SameObject(left, right)))
    ensures !(left.Integer? && right.Integer?) && operator == "!=" ==> r == Success(Boolean(!SameObject(left, right)))
    ensures !(left.Integer? && right.Integer?) && operator != "==" && operator != "!=" && TypeOf(left) != TypeOf(right) ==>
      r == Success(Error("type mismatch: " + TypeName(TypeOf(left)) + " " + operator + " " + TypeName(TypeOf(right))))
    ensures !(left.Integer? && right.Integer?) && operator != "==" && operator != "!=" && TypeOf(left) == TypeOf(right) ==>
      r == Success(Error("unknown operator: " + TypeName(TypeOf(left)) + " " + operator + " " + TypeName(TypeOf(right))))
  {
    if left.Integer? && right.Integer? then IntegerInfix(operator, left.intValue, right.intValue)
    else if operator == "==" then Success(Boolean(SameObject(left, right)))
    else if operator == "!=" then Success(Boolean(!SameObject(left, right)))
    else if TypeOf(left) != TypeOf(right) then Success(InfixError("type mismatch: ", operator, left, right))
    else Success(InfixError("unknown operator: ", operator, left, right))
  }

  /** `Eval` of an expression. Identifiers, macro literals and the node kinds
      the switch does not list evaluate to Null. */
  function EvalExpression(e: Expression): (r: Result<Obj, Exception>)
    ensures Evaluated(r)
    decreases e
  {
    match e
    case IntegerLiteral(v) => Success(Integer(v))
    case BooleanLiteral(b) => Success(Boolean(b))
    case PrefixExpression(operator, right) =>
      var r :- EvalExpression(right);
      if r.Error? then Success(r) else Success(PrefixOperation(operator, r))
    case InfixExpression(left, operator, right) =>
      var l :- EvalExpression(left);
      if l.Error? then Success(l)
      else
        var r :- EvalExpression(right);
        if r.Error? then Success(r) else InfixOperation(operator, l, r)
    case IfExpression(condition, consequence, alternative) =>
      var c :- EvalExpression(condition);
      if c.Error? then Success(c)
      else if IsTruthy(c) then EvalBlock(consequence)
      else if alternative.Some? then EvalBlock(alternative.value)
      else Success(Null)
    case _ => Success(Null)
  }

  /** `Eval` of a statement. An expression statement without an expression
      and a let statement evaluate to Null. */
  function EvalStatement(s: Statement): (r: Result<Obj, Exception>)
    ensures Evaluated(r)
    decreases s
  {
    match s
    case ExpressionStatement(_, Some(e)) => EvalExpression(e)
    case ReturnStatement(_, value) =>
      var v :- EvalExpression(value);
      if v.Error? then Success(v) else Success(ReturnValue(v))
    case BlockStatement(block) => EvalBlock(block)
    case _ => Success(Null)
  }

  /** `EvalBlockStatements` as a function. */
  function EvalBlock(b: Block): (r: Result<Obj, Exception>)
    ensures Evaluated(r)
    decreases b
  {
    BlockRun(b.statements, Null)
  }

  /** The block loop from a point on, with `result` the last statement's
      value so far: a ReturnValue or an Error stops the block and is
      returned as it is. */
  function BlockRun(statements: seq<Statement>, result: Obj): (r: Result<Obj, Exception>)
    ensures r.Failure? ==> r.error == DivideByZero || r.error == Overflow
    ensures r.Success? && Produced(result) ==> Produced(r.value)
    decreases statements
  {
    if statements == [] then Success(result)
    else
      var r :- EvalStatement(statements[0]);
      if r.ReturnValue? || r.Error? then Success(r) else BlockRun(statements[1..], r)
  }

  /** The program loop from a point on: a ReturnValue stops the program and
      is unwrapped; an Error stops it and is returned. */
  function ProgramRun(statements: seq<Statement>, result: Obj): (r: Result<Obj, Exception>)
    ensures r.Failure? ==> r.error == DivideByZero || r.error == Overflow
    ensures r.Success? && Produced(result) ==> Produced(r.value)
  {
    if statements == [] then Success(result)
    else
      var r :- EvalStatement(statements[0]);
      if r.ReturnValue? then Success(r.inner)
      else if r.Error? then Success(r)
      else ProgramRun(statements[1..], r)
  }

  /** `Eval`: the switch over the node kinds. */
  function Eval(node: Node): (r: Result<Obj, Exception>)
    ensures Evaluated(r)
    ensures node.ProgramNode? && node.program.statements == [] ==> r == Success(Null)
  {
    match node
    case ProgramNode(p) => ProgramRun(p.statements, Null)
    case StatementNode(s) => EvalStatement(s)
    case ExpressionNode(e) => EvalExpression(e)
  }

  /** `EvalProgram`: the foreach loop over the statements. */
  method EvalProgram(p: Program) returns (r: Result<Obj, Exception>)
    ensures r == Eval(ProgramNode(p))
    ensures r.Success? ==> !r.value.ReturnValue? || p.statements != []
  {
    var result := Null;
    var i := 0;
    while i < |p.statements|
      invariant 0 <= i <= |p.statements|
      invariant ProgramRun(p.statements, Null) == ProgramRun(p.statements[i..], result)
      invariant i == 0 ==> result == Null
    {
      assert p.statements[i..][1..] == p.statements[i + 1..];
      var s := EvalStatement(p.statements[i]);
      if s.Failure? {
        return Failure(s.error);
      }
      result := s.value;
      if result.ReturnValue? {
        return Success(result.inner);
      } else if result.Error? {
        return Success(result);
      }
      i := i + 1;
    }
    return Success(result);
  }

  /** `EvalBlockStatements`: the foreach loop over the block's statements. */
  method EvalBlockStatements(b: Block) returns (r: Result<Obj, Exception>)
    ensures r == EvalBlock(b)
    ensures r.Success? && b.statements == [] ==> r.value == Null
  {
    var result := Null;
    var i := 0;
    while i < |b.statements|
      invariant 0 <= i <= |b.statements|
      invariant BlockRun(b.statements, Null) == BlockRun(b.statements[i..], result)
    {
      assert b.statements[i..][1..] == b.statements[i + 1..];
      var s := EvalStatement(b.statements[i]);
      if s.Failure? {
        return Failure(s.error);
      }
      result := s.value;
      if result.ReturnValue? || result.Error? {
        return Success(result);
      }
      i := i + 1;
    }
    return Success(result);
  }

  // ------------------------------------------------------------ properties

  /** A program's result is never a ReturnValue wrapper of a statement that
      returned: the program loop unwraps it; an empty program yields Null. */
  lemma {:induction false} ProgramRunUnwraps(statements: seq<Statement>, result: Obj)
    requires !result.ReturnValue?
    ensures ProgramRun(statements, result).Success? && ProgramRun(statements, result).value.ReturnValue?
        ==> exists k | 0 <= k < |statements| :: EvalStatement(statements[k]).Success?
              && EvalStatement(statements[k]).value.ReturnValue?
              && EvalStatement(statements[k]).value.inner.ReturnValue?
    ensures statements == [] ==> ProgramRun(statements, result) == Success(result)
    decreases statements
  {
    if statements != [] {
      var r := EvalStatement(statements[0]);
      if r.Success? && !r.value.ReturnValue? && !r.value.Error? {
        ProgramRunUnwraps(statements[1..], r.value);
        var pr := ProgramRun(statements, result);
        if pr.Success? && pr.value.ReturnValue? {
          var k :| 0 <= k < |statements[1..]| && EvalStatement(statements[1..][k]).Success?
            && EvalStatement(statements[1..][k]).value.ReturnValue?
            && EvalStatement(statements[1..][k]).value.inner.ReturnValue?;
          assert statements[1..][k] == statements[k + 1];
        }
      }
    }
  }

  /** A return stops the program: whatever follows a statement that returns
      is never evaluated, and the program yields the returned value. */
  lemma ReturnStopsProgram(token: Ast.Tokens.Token, value: Expression, rest: seq<Statement>, result: Obj)
    requires EvalExpression(value).Success? && !EvalExpression(value).value.Error?
    ensures ProgramRun([ReturnStatement(token, value)] + rest, result) == EvalExpression(value)
  {
  }

  /** A return inside a block stops the block but stays wrapped, so that the
      enclosing blocks stop too and only the program unwraps it. */
  lemma ReturnStopsBlock(token: Ast.Tokens.Token, value: Expression, rest: seq<Statement>, result: Obj)
    requires EvalExpression(value).Success? && !EvalExpression(value).value.Error?
    ensures BlockRun([ReturnStatement(token, value)] + rest, result) == Success(ReturnValue(EvalExpression(value).value))
  {
  }

  /** An Error in the left operand is the infix expression's value, and the
      right operand is never evaluated: its value does not matter. */
  lemma LeftErrorShortCircuits(left: Expression, operator: string, right1: Expression, right2: Expression)
    requires EvalExpression(left).Success? && EvalExpression(left).value.Error?
    ensures EvalExpression(InfixExpression(left, operator, right1)) == EvalExpression(left)
    ensures EvalExpression(InfixExpression(left, operator, right1)) == EvalExpression(InfixExpression(left, operator, right2))
  {
  }

  /** An Error in the condition is the value of the `if`; neither branch runs. */
  lemma ConditionErrorShortCircuits(condition: Expression, consequence: Block, alternative: Option<Block>)
    requires EvalExpression(condition).Success? && EvalExpression(condition).value.Error?
    ensures EvalExpression(IfExpression(condition, consequence, alternative)) == EvalExpression(condition)
  {
  }

  /** `if` picks the consequence when the condition is truthy, the
      alternative when it is falsy and present, and Null otherwise. */
  lemma IfChoosesBranch(condition: Expression, consequence: Block, alternative: Option<Block>)
    requires EvalExpression(condition).Success? && !EvalExpression(condition).value.Error?
    ensures var c := EvalExpression(condition).value;
      EvalExpression(IfExpression(condition, consequence, alternative))
        == if IsTruthy(c) then EvalBlock(consequence)
           else if alternative.Some? then EvalBlock(alternative.value)
           else Success(Null)
  {
  }

  /** On integers, `<` is `>` with the operands swapped, and `==`/`!=`
      compare values (unlike on other objects, where they compare identity). */
  lemma IntegerComparisons(a: int64, b: int64)
    ensures IntegerInfix("<", a, b) == IntegerInfix(">", b, a)
    ensures IntegerInfix("==", a, b) == Success(Boolean(a == b))
    ensures IntegerInfix("!=", a, b) == Success(Boolean(a != b))
  {
  }

  /** Integer arithmetic agrees with mathematics when the result fits a
      long, and wraps around modulo 2^64 when it does not. */
  lemma IntegerArithmetic(a: int64, b: int64, operator: string, exact: int)
    requires operator in {"+", "-", "*"}
    requires exact == if operator == "+" then a as int + b as int
                      else if operator == "-" then a as int - b as int
                      else a as int * b as int
    ensures IntegerInfix(operator, a, b).Success? && IntegerInfix(operator, a, b).value.Integer?
    ensures (IntegerInfix(operator, a, b).value.intValue - exact) % Two64 == 0
    ensures MinInt64 <= exact <= MaxInt64 ==> IntegerInfix(operator, a, b) == Success(Integer(exact))
  {
  }

  /** `/` truncates toward zero. */
  lemma IntegerDivision(a: int64, b: int64)
    requires b != 0 && !(a == MinInt64 && b == -1)
    ensures IntegerInfix("/", a, b) == Success(Integer(TruncatedDiv(a, b)))
  {
  }

  /** Two booleans compare equal by identity exactly when they have the same
      value, since both are one of the two shared objects. */
  lemma BooleanEquality(x: bool, y: bool)
    ensures InfixOperation("==", Boolean(x), Boolean(y)) == Success(Boolean(x == y))
    ensures InfixOperation("!=", Boolean(x), Boolean(y)) == Success(Boolean(x != y))
  {
  }

  /** `if (10 > 1) { if (10 > 1) { return 10; } return 1; }` evaluates to 10:
      the inner return stops both blocks and the program unwraps it. */
  lemma NestedReturn(tok: Ast.Tokens.Token)
    ensures var cond := InfixExpression(IntegerLiteral(10), ">", IntegerLiteral(1));
      var inner := IfExpression(cond, Block(tok, [ReturnStatement(tok, IntegerLiteral(10))]), None);
      var outer := IfExpression(cond, Block(tok, [ExpressionStatement(tok, Some(inner)), ReturnStatement(tok, IntegerLiteral(1))]), None);
      Eval(ProgramNode(Program([ExpressionStatement(tok, Some(outer))]))) == Success(Integer(10))
  {
    var cond := InfixExpression(IntegerLiteral(10), ">", IntegerLiteral(1));
    assert EvalExpression(cond) == Success(Boolean(true));
    var ret10 := ReturnStatement(tok, IntegerLiteral(10));
    var innerBlock := Block(tok, [ret10]);
    assert EvalBlock(innerBlock) == Success(ReturnValue(Integer(10))) by {
      ReturnStopsBlock(tok, IntegerLiteral(10), [], Null);
      assert [ret10] + [] == [ret10];
    }
    var inner := IfExpression(cond, innerBlock, None);
    assert EvalExpression(inner) == Success(ReturnValue(Integer(10)));
    assert EvalStatement(ExpressionStatement(tok, Some(inner))) == Success(ReturnValue(Integer(10)));
    var outerStatements := [ExpressionStatement(tok, Some(inner)), ReturnStatement(tok, IntegerLiteral(1))];
    assert BlockRun(outerStatements, Null) == Success(ReturnValue(Integer(10)));
    var outerBlock := Block(tok, outerStatements);
    var outer := IfExpression(cond, outerBlock, None);
    assert EvalExpression(outer) == EvalBlock(outerBlock);
    assert EvalStatement(ExpressionStatement(tok, Some(outer))) == Success(ReturnValue(Integer(10)));
  }

  /** `5 + true` is a type mismatch. */
  lemma TypeMismatchMessage()
    ensures EvalExpression(InfixExpression(IntegerLiteral(5), "+", BooleanLiteral(true)))
         == Success(Error("type mismatch: Integer + Boolean"))
  {
    assert InfixOperation("+", Integer(5), Boolean(true))
        == Success(InfixError("type mismatch: ", "+", Integer(5), Boolean(true)));
    assert "type mismatch: " + "Integer" + " " + "+" + " " + "Boolean" == "type mismatch: Integer + Boolean";
  }

  /** `true + false` is an unknown operator. */
  lemma UnknownOperatorMessage()
    ensures EvalExpression(InfixExpression(BooleanLiteral(true), "+", BooleanLiteral(false)))
         == Success(Error("unknown operator: Boolean + Boolean"))
  {
    assert InfixOperation("+", Boolean(true), Boolean(false))
        == Success(InfixError("unknown operator: ", "+", Boolean(true), Boolean(false)));
    assert "unknown operator: " + "Boolean" + " " + "+" + " " + "Boolean" == "unknown operator: Boolean + Boolean";
  }
}
