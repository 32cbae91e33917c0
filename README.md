# Monkey core in Dafny

This project models the core of a C# implementation of the Monkey language. It covers the front end and both back ends. The front end has a lexer, keyword lookup, a `let`/`return` parser and the AST records. The back ends are a tree-walking evaluator and a bytecode path: bytecode format, symbol table, compiler and stack VM. The model also covers the runtime objects, the builtin functions, the environment and the macro definition pass. Each module follows one source file:

| module | source | form |
|---|---|---|
| `Tokens`, `Ast` | Token.cs, Ast.cs | datatypes and functions |
| `Lexing` | Lexer.cs | class `Lexer` whose scanning loops are proved against the token-stream function `Lex` |
| `Parsing` | Parser.cs | class `Impl` with the two-token lookahead and error list, proved against `ParseFrom`; class `Parser` over a `Lexer` |
| `Code`, `Formatting` | Code.cs | the opcode catalogue, `Make`, `ReadUint16`, `ReadOperands` and `Disassemble`; the loops are methods proved against functions |
| `Symbols` | SymbolTable.cs | class `SymbolTable`, a chain of tables, proved against `ResolveIn` over the chain's states |
| `Compiler` | Compiler.cs | class `Compiler` appending to a buffer and a pool, proved against `CompileNode` |
| `Runtime`, `Execution`, `Machine` | Vm.cs | C# `long` arithmetic and exceptions; the instruction semantics `Step`/`Exec` on values; class `Vm` over a 2048-slot stack array and a globals array, each method proved equal to its step function |
| `Objects`, `Frames` | Object.cs, Environment.cs, Frame.cs | the object records, hash keys, class `Environment`, class `Frame` |
| `Evaluation` | Evaluator.cs | recursive evaluation functions; the two `foreach` loops are methods |
| `Builtins` | Builtins.cs | `len`, `first`, `last`, `rest`, `push`, `keys` as functions |
| `MacroDefinition` | MacroExpansion.cs | `DefineMacros`, `TryGetMacroDefinition`, `AddMacro` |

.NET exceptions are values of `Runtime.Exception`, not preconditions. These include integer division by zero, `long.MinValue / -1`, an index past an array, a null dereference and a duplicate dictionary key. C# `null` on the VM stack is the slot `Empty`. A stack slot records the identity of the object it holds, because `==` on non-integers compares references. C# `long` arithmetic wraps modulo 2^64 (`Runtime.Wrap64`), and its division truncates toward zero (`Runtime.TruncatedDiv`).

Some types and members that other files use are missing from the source. They are filled in as follows:
- `Opcode.Hash` is opcode 19, with one two-byte operand, as Vm.cs:185-186 reads it.
- `String`, `Array`, `Hash`, `Builtin` and `Macro` objects get the fields the other files read. Integers, booleans and strings are the hashable keys.
- `Token.LookupIdentifier` and `TokenType.Int` in Lexer.cs:49,59 are the keyword lookup and `TokenType.Integer` of Token.cs.
- `Evaluator.Null` is the shared Null object.
- Frame's `Closure` type is a type parameter.
- Equality of objects is C# record equality: records compare field by field. Integers, booleans, null and strings therefore compare by value. An `Array` or `Hash` compares its immutable collection, and those compare by reference. A non-empty collection built by the VM is always a new instance. An empty one is the shared empty instance, because the .NET immutable builders return it.

## Model

| member | source | states |
|---|---|---|
| Tokens.LookupIdentifier | src/Monkey/Token.cs:57-71 | the type of a spelling is Identifier or the keyword type whose keyword is exactly that spelling |
| Tokens.LookupKeyword | src/Monkey/Token.cs:59-70 | a spelling maps to a keyword type exactly when it is that type's keyword (`fn`, `let`, `true`, `false`, `if`, `else`, `return`, `macro`) |
| Tokens.LookupNonKeyword | src/Monkey/Token.cs:69 | every spelling that is no keyword, a keyword in another case included, is an Identifier |
| Tokens.RemoveEnclosingQuotes | src/Monkey/Token.cs:54 | succeeds exactly for literals of two or more characters (`Substring` throws otherwise); the first character, the result and the last character make up the literal |
| Tokens.RemoveEnclosingQuotesOfQuoted | src/Monkey/Token.cs:54 | removing the quotes of a quoted text gives the text back |
| Tokens.TypeName | src/Monkey/Token.cs:3-48 | every token type has a non-empty name, as the parser's messages print it |
| Parsing.ParsedLiterals | src/Monkey/Ast.cs:17-27 | in a parsed program a `let` statement's literal is `let` and its identifier's literal is the identifier's value; a program starting with a `let` has literal `let` |
| Objects.TypeOf | src/Monkey/Object.cs:18-51 | an Integer, Boolean, Null, String, ReturnValue or Error object reports exactly its own tag, and every tag prints as the name of the record class that reports it |
| Objects.TypeNameInjective | src/Monkey/Object.cs:3-10 | distinct tags print as distinct names |
| Objects.Inspect | src/Monkey/Object.cs:22-50 | integers, booleans, null and errors always print; a Boolean prints `true` exactly when it is true and `false` otherwise, Null prints `null`, and an Error prints `ERROR: ` followed by its message |
| Objects.Unwrapped | src/Monkey/Object.cs:39-44 | the object inside all ReturnValue wrappers is no ReturnValue |
| Objects.InspectUnwrapped | src/Monkey/Object.cs:43 | a ReturnValue prints as the value it carries, however deeply nested |
| Objects.InspectInteger | src/Monkey/Object.cs:22 | an Integer prints as its decimal numeral: a minus sign exactly for a negative value, then digits that read back as the magnitude |
| Objects.KeyOf | src/Monkey/Vm.cs:346 | an object is usable as a hash key exactly when it is an Integer, a Boolean or a String |
| Objects.KeyRoundTrip | src/Monkey/Vm.cs:346-351 | a key is the key of exactly one object, the one `keys` gives back for it |
| Objects.Environment.constructor | src/Monkey/Environment.cs:8 | a new environment binds nothing |
| Objects.Environment.Get | src/Monkey/Environment.cs:10 | a value exactly for a bound name, and then the bound object; null (None) for an unbound name |
| Objects.Environment.Set | src/Monkey/Environment.cs:12-16 | a new name is bound and its value returned, so a later Get returns it; an already bound name throws and nothing changes; every other name keeps its binding |
| Frames.Frame.constructor | src/Monkey/Frame.cs:8-14 | the closure and the base pointer are the arguments, and the instruction pointer starts at -1 |
| Frames.Frame.SetInstructionPointer | src/Monkey/Frame.cs:12 | sets the instruction pointer; the closure and the base pointer are constants and cannot change |
| Code.OpcodeName | src/Monkey/Code.cs:8-37 | every opcode byte has a non-empty printed name |
| Code.OpcodeNameInjective | src/Monkey/Code.cs:8-37 | distinct opcode bytes print distinct names: the catalogue names are distinct and a byte past the catalogue prints as its number |
| Code.Of | src/Monkey/Code.cs:46-75 | a definition exists exactly for the catalogue bytes; each has at most one operand, of width 2, and has one exactly for Constant, JumpNotTruthy, Jump, GetGlobal, SetGlobal, Array and Hash |
| Code.LittleEndianBytes | src/Monkey/Code.cs:113 | `BitConverter.GetBytes(int)` gives four bytes |
| Code.Take | src/Monkey/Code.cs:113 | `Take(n)` keeps the first n elements, or all of them when there are fewer |
| Code.ToBigEndian | src/Monkey/Code.cs:111-120 | the encoding has as many bytes as the width, clamped to 0..4 |
| Code.Make | src/Monkey/Code.cs:101-109 | nothing for a byte without a definition; otherwise the opcode byte followed by the operands encoded pairwise with the widths |
| Code.ReadUint16 | src/Monkey/Code.cs:122-132 | the first two bytes read as a number in 0..65535 |
| Code.ReadUint16BigEndian | src/Monkey/Code.cs:122-132 | the first byte is the high byte and the second the low byte |
| Code.ReadUint16OfToBigEndian | src/Monkey/Code.cs:111-132 | reading back a two-byte encoding gives the value modulo 65536, so the two are inverse on 0..65535 |
| Code.DecodeOperands | src/Monkey/Code.cs:77-96 | on success one operand per width and a byte count of two per width |
| Code.ReadOperands | src/Monkey/Code.cs:77-96 | the loop returns what DecodeOperands specifies: the operands and the bytes read, NotImplemented for a width other than 2, ArgumentOutOfRange for an operand cut off by the end |
| Code.DecodeEncodeOperands | src/Monkey/Code.cs:77-113 | operands in 0..65535, encoded anywhere in a stream, decode back to themselves and advance the offset by the sum of the widths |
| Code.MakeReadOperandsRoundTrip | src/Monkey/Code.cs:77-113 | `ReadOperands` of the bytes after `Make`'s opcode byte returns the operands and 2 × their number, whatever follows |
| Code.DisassembleStep | src/Monkey/Code.cs:139-154 | each round of the loop moves the offset forward |
| Code.FormatInstruction | src/Monkey/Code.cs:160-175 | the text is an error line exactly when the operand count disagrees with the definition or exceeds one; otherwise it is the opcode name, followed by a space and the operand when there is one |
| Code.Disassemble | src/Monkey/Code.cs:134-158 | the loop appends exactly the lines DisassembleFrom specifies, its text is their rendering, and an exception from ReadOperands ends it |
| Code.DisassembleOffsets | src/Monkey/Code.cs:139-155 | every instruction line from offset i on sits at an offset between i and the end of the stream, and the offsets strictly increase from line to line |
| Code.DisassembleMade | src/Monkey/Code.cs:150-154 | an instruction made by `Make` at offset i disassembles to one line at i, and the scan resumes 1 + 2 × operands bytes later |
| Code.DisassembleUndefined | src/Monkey/Code.cs:143-148 | a byte without a definition (20 or more) gives the inline `ERRER: No definition of N found` line and the scan advances by one byte |
| Code.ToBigEndianTwoBytes | src/Monkey/Code.cs:111-120 | an operand in 0..65535 is encoded as its high byte, then its low byte |
| Code.MakeBare | src/Monkey/Code.cs:101-109 | an opcode without operands encodes as its byte alone; `Zip` drops whatever operands are passed |
| Code.MakeConstant | src/Monkey/Code.cs:101-109 | `Make(Constant, x)` is the opcode byte, then x's high and low bytes |
| Code.MakeConstants | src/Monkey/Code.cs:101-109 | Constant 2, 65534 and 65535 encode as [0,0,2], [0,255,254] and [0,255,255] |
| Code.DisassembleTwoConstants | src/Monkey/Code.cs:134-175 | two Constant instructions disassemble to `0000 OpConstant 2` and `0003 OpConstant 65535` |
| Formatting.NatToString | src/Monkey/Object.cs:22 | a non-empty numeral of digits with no leading zero |
| Formatting.IntToString | src/Monkey/Object.cs:22 | `long.ToString()` starts with a minus sign exactly for a negative number |
| Formatting.NatToStringRoundTrip | src/Monkey/Object.cs:22 | reading back a rendered numeral gives the number |
| Formatting.NatToStringInjective | src/Monkey/Object.cs:22 | different numbers never share a numeral |
| Formatting.D4 | src/Monkey/Code.cs:152 | `ToString("D4")` pads the numeral with zeros to at least four digits, and the digits still read as the number |
| Formatting.D4Small | src/Monkey/Code.cs:152 | a one-digit offset prints as three zeros and the digit |
| Runtime.Wrap64 | src/Monkey/Vm.cs:226-235 | the unchecked `long` result is the one 64-bit value congruent to the exact result modulo 2^64, and is the exact result whenever that fits |
| Runtime.TruncatedDiv | src/Monkey/Vm.cs:238-239 | integer division truncates toward zero: the magnitude is the largest multiple of the divisor's not above the dividend's, and the sign is negative exactly when the operands' signs differ |
| Runtime.Div64 | src/Monkey/Vm.cs:238-239 | `long / long` throws DivideByZeroException exactly on a zero divisor and OverflowException exactly on `long.MinValue / -1`, and otherwise gives the truncated quotient |
| Execution.NativeBool | src/Monkey/Vm.cs:287-291 | a native bool becomes a Boolean object carrying the same value |
| Execution.PushStep | src/Monkey/Vm.cs:357-368 | a push succeeds exactly when the stack is below 2048 slots, putting the slot on top and keeping everything under it; on a full stack it reports `stack overflow` and changes nothing |
| Execution.PushFresh | src/Monkey/Vm.cs:357-368 | pushing a new object keeps the state well formed and the globals untouched |
| Execution.Operand | src/Monkey/Vm.cs:64 | the two-byte operand is read when two bytes follow the opcode, is below 65536, and otherwise the read throws ArgumentOutOfRangeException |
| Execution.IntegerBinaryStep | src/Monkey/Vm.cs:221-247 | integer arithmetic keeps the stack well formed and never touches the globals |
| Execution.StringBinaryStep | src/Monkey/Vm.cs:249-258 | string arithmetic keeps the stack well formed and never touches the globals |
| Execution.BinaryStep | src/Monkey/Vm.cs:208-219 | a binary operation keeps the stack well formed and never touches the globals |
| Execution.ComparisonStep | src/Monkey/Vm.cs:260-285 | a comparison keeps the stack well formed and never touches the globals |
| Execution.MinusStep | src/Monkey/Vm.cs:293-303 | negation keeps the stack well formed and never touches the globals |
| Execution.BangStep | src/Monkey/Vm.cs:305-316 | `!` keeps the stack well formed and never touches the globals |
| Execution.Values | src/Monkey/Vm.cs:325-335 | the collected elements are the stack slots' objects in stack order, and there are none exactly when some slot holds null |
| Execution.ValuesAppend | src/Monkey/Vm.cs:329-332 | reading one more non-null slot extends the collected elements by its object |
| Execution.ArrayStep | src/Monkey/Vm.cs:172-183 | building an array keeps the stack well formed and never touches the globals |
| Execution.HashStep | src/Monkey/Vm.cs:185-201 | building a hash keeps the stack well formed and never touches the globals |
| Execution.Step | src/Monkey/Vm.cs:52-204 | one instruction keeps the stack well formed and the globals array the same size |
| Execution.Exec | src/Monkey/Vm.cs:50-206 | however the run ends, the state it leaves is well formed |
| Execution.PopLeavesLastPopped | src/Monkey/Vm.cs:48 | after `Pop` the popped object is the last popped stack element, and execution continues at the next byte |
| Execution.BangAgreesWithEvaluator | src/Monkey/Vm.cs:305-323 | the machine's `!` and truthiness agree with the tree-walking evaluator's on every object |
| Execution.BangIsNotTruthy | src/Monkey/Vm.cs:305-323 | `!x` is true exactly when x is not truthy |
| Execution.ConditionalJump | src/Monkey/Vm.cs:130-139 | `JumpNotTruthy` pops the condition and jumps to its operand exactly when the condition is falsy, and otherwise continues past the operand |
| Execution.BooleansCompareByValue | src/Monkey/Vm.cs:260-277 | although `==` compares references, two booleans compare equal exactly when their values are equal, because both come from the two shared objects |
| Execution.BuiltStringsDiffer | src/Monkey/Vm.cs:260-277 | two strings built separately are unequal under `==` even when their characters agree |
| Execution.IntegerArithmetic | src/Monkey/Vm.cs:221-247 | `+`, `-` and `*` on two integers replace them with one new integer holding the 64-bit wrapped result |
| Execution.IntegerDivision | src/Monkey/Vm.cs:238-239 | `/` on two integers throws on a zero divisor and on `long.MinValue / -1`, and otherwise pushes the truncated quotient |
| Execution.StringOperations | src/Monkey/Vm.cs:249-258 | two strings support only `+`, which pushes their concatenation; the other arithmetic opcodes return `unknown string operator` |
| Execution.MixedOperands | src/Monkey/Vm.cs:208-219 | arithmetic on anything but two integers or two strings returns the unsupported-types error naming both types |
| Execution.Negation | src/Monkey/Vm.cs:293-303 | `-` on an integer pushes its wrapped negation, and on any other object returns an error naming its type |
| Execution.IntegerComparison | src/Monkey/Vm.cs:260-285 | integers compare by value under `==`, `!=` and `>` |
| Execution.ArrayCollects | src/Monkey/Vm.cs:172-183 | `Array n` replaces the top n objects with one new array holding them bottom first |
| Execution.HashRejectsKey | src/Monkey/Vm.cs:337-355 | `Hash n` whose first key cannot be hashed returns `unusable as hash key` naming its type and leaves the state unchanged |
| Execution.DuplicateArrayValues | src/Monkey/Vm.cs:337-355 | two arrays under one key make `Add` throw exactly when they are different objects and not both empty; otherwise the first one stays |
| Execution.GlobalRoundTrip | src/Monkey/Vm.cs:154-170 | `SetGlobal i` then `GetGlobal i` puts the same object back on top of the stack and restores the stack pointer |
| Execution.MoreFuelSameRun | src/Monkey/Vm.cs:52 | a run that ends within some number of steps ends the same way with any larger step budget |
| Execution.OnePlusTwoRuns | src/Monkey/Vm.cs:62-86 | the bytecode of `1 + 2;` finishes with 3, a new integer, as the last popped element |
| Machine.CreateGlobalsArray | src/Monkey/Vm.cs:40 | the globals store is 2048 null slots |
| Machine.NewWithGlobalStore | src/Monkey/Vm.cs:38 | a machine built over a globals store uses that very store, with an empty stack |
| Machine.Vm.WithGlobals | src/Monkey/Vm.cs:26-34 | the machine takes the compiler's instructions and constants, a new empty stack and the given globals |
| Machine.Vm.constructor | src/Monkey/Vm.cs:36 | a machine made from bytecode alone gets globals of its own, all null |
| Machine.Vm.GetStackTop | src/Monkey/Vm.cs:42-46 | the top of the stack, or null on an empty stack |
| Machine.Vm.GetLastPoppedStackElement | src/Monkey/Vm.cs:48 | the slot at the stack pointer, and an index exception on a full stack |
| Machine.Vm.Push | src/Monkey/Vm.cs:357-368 | the push changes the machine exactly as the push step says |
| Machine.Vm.PushNew | src/Monkey/Vm.cs:357-368 | a new object gets the next identity and is pushed |
| Machine.Vm.Pop | src/Monkey/Vm.cs:370-375 | pop returns the top slot and lowers the pointer, and throws below the bottom |
| Machine.Vm.ExecuteBinaryOperation | src/Monkey/Vm.cs:208-219 | the method changes the machine exactly as the binary step says |
| Machine.Vm.ExecuteBinaryIntegerOperation | src/Monkey/Vm.cs:221-247 | the method changes the machine exactly as the integer step says |
| Machine.Vm.ExecuteBinaryStringOperation | src/Monkey/Vm.cs:249-258 | the method changes the machine exactly as the string step says |
| Machine.Vm.ExecuteComparison | src/Monkey/Vm.cs:260-277 | the method changes the machine exactly as the comparison step says |
| Machine.Vm.ExecuteIntegerComparison | src/Monkey/Vm.cs:279-285 | `==`, `!=` and `>` push the matching boolean, and any other opcode is an unknown operator |
| Machine.Vm.ExecuteMinusOperator | src/Monkey/Vm.cs:293-303 | the method changes the machine exactly as the negation step says |
| Machine.Vm.ExecuteBangOperator | src/Monkey/Vm.cs:305-316 | the method changes the machine exactly as the `!` step says |
| Machine.Vm.BuildArray | src/Monkey/Vm.cs:325-335 | the elements are the slots' objects between the two indices, and a negative start throws |
| Machine.Vm.BuildHash | src/Monkey/Vm.cs:337-355 | the loop builds the same pairs, error or exception as the hash specification, whose duplicate-key test is C# record equality: arrays and hashes compare by identity unless both are empty |
| Machine.Vm.ReadOperand | src/Monkey/Vm.cs:64 | the operand read agrees with the operand specification |
| Machine.Vm.ExecuteAt | src/Monkey/Vm.cs:52-204 | one round of the dispatch loop changes the machine exactly as the step specification says |
| Machine.Vm.ExecuteSetGlobal | src/Monkey/Vm.cs:154-159 | `SetGlobal` pops, then stores the object in the global slot, exactly as the step specification says |
| Machine.Vm.ExecuteArray | src/Monkey/Vm.cs:172-183 | `Array` changes the machine exactly as the step specification says |
| Machine.Vm.ExecuteHash | src/Monkey/Vm.cs:185-201 | `Hash` changes the machine exactly as the step specification says |
| Machine.Vm.Run | src/Monkey/Vm.cs:50-206 | the loop ends with the same result and state as the run specification |
| Compiler.CompileExpression | src/Monkey/Compiler.cs:56-128 | compiling an expression only appends to the buffer and the pool, and adds at most one constant per integer literal |
| Compiler.CompileStatement | src/Monkey/Compiler.cs:40-54 | compiling a statement only appends to the buffer and the pool, and adds at most one constant per integer literal |
| Compiler.CompileStatements | src/Monkey/Compiler.cs:27-38 | compiling a run of statements only appends to the buffer and the pool, and adds at most one constant per integer literal |
| Compiler.Compiler.constructor | src/Monkey/Compiler.cs:12-13 | a new compiler has an empty buffer and an empty pool |
| Compiler.Compiler.Compile | src/Monkey/Compiler.cs:17-25 | the switch leaves the buffer, the pool and the error exactly as compiling the node's kind says |
| Compiler.Compiler.CompileProgram | src/Monkey/Compiler.cs:27-38 | the loop compiles the statements in order and stops at the first error, exactly as the statements specification says |
| Compiler.Compiler.CompileExpressionStatement | src/Monkey/Compiler.cs:40-54 | the method leaves the compiler exactly as the statement specification says |
| Compiler.Compiler.CompileInfixExpression | src/Monkey/Compiler.cs:56-110 | the method leaves the compiler exactly as the expression specification says, operands of `<` swapped |
| Compiler.Compiler.CompileIntegerLiteral | src/Monkey/Compiler.cs:112-117 | the method leaves the compiler exactly as the expression specification says |
| Compiler.Compiler.CompileBoolean | src/Monkey/Compiler.cs:119-128 | the method leaves the compiler exactly as the expression specification says |
| Compiler.Compiler.AddConstant | src/Monkey/Compiler.cs:130-134 | the value is appended to the pool and its index is the pool's new last position |
| Compiler.Compiler.Emit | src/Monkey/Compiler.cs:136-140 | the encoded instruction is appended and its start offset returned |
| Compiler.Compiler.AddInstruction | src/Monkey/Compiler.cs:142-147 | the bytes are appended and the old buffer length is returned; the pool is unchanged |
| Compiler.LessThanSwaps | src/Monkey/Compiler.cs:58-105 | `a < b` compiles to exactly the bytes and constants of `b > a` |
| Compiler.LiteralValues | src/Monkey/Compiler.cs:112-117 | an expression has one pool entry per integer literal |
| Compiler.PoolHoldsLiterals | src/Monkey/Compiler.cs:112-134 | an expression that compiles without error appends exactly its integer literals to the pool, in the order the compiler reaches them |
| Compiler.IntegerLiteralAddsConstant | src/Monkey/Compiler.cs:112-117 | an integer literal adds one constant and emits `Constant` with the pool's old size as its big-endian operand |
| Compiler.BooleanEmitsOneByte | src/Monkey/Compiler.cs:119-128 | a boolean emits exactly the byte True or False and no constant |
| Compiler.ExpressionStatementPops | src/Monkey/Compiler.cs:40-54 | an expression statement is its expression's code followed by exactly one Pop; without an expression it is an error that emits nothing |
| Compiler.UnknownOperatorKeepsOperands | src/Monkey/Compiler.cs:107-108 | an unknown operator is an error, and the code already emitted for both operands stays in the buffer |
| Compiler.UnhandledNodesEmitNothing | src/Monkey/Compiler.cs:24 | node kinds the switch does not handle compile to nothing, without error |
| Compiler.StatementsCompose | src/Monkey/Compiler.cs:29-37 | compiling two runs of statements is compiling the first and then, only if it succeeded, the second from where the first left off |
| Compiler.OneThenTwo | src/Monkey/Compiler.cs:112-117 | the literals 1 and 2 go to the pool in order, with operands 0 and 1 |
| Compiler.OnePlusTwo | src/Monkey/Compiler.cs:17-117 | `1 + 2;` compiles to `Constant 0`, `Constant 1`, `Add`, `Pop` with the pool `[1, 2]` |
| Evaluation.Bang | src/Monkey/Evaluator.cs:94-103 | `!` always yields a Boolean |
| Evaluation.BangIsNotTruthy | src/Monkey/Evaluator.cs:94-103 | `!x` is the negation of x's truthiness, and `!!x` is its truthiness |
| Evaluation.Negate | src/Monkey/Evaluator.cs:105-112 | `-` on an integer is its negation modulo 2^64, which is the plain negation except that `long.MinValue` stays itself; on anything else it is the Error `unknown operator: -T` naming the operand type |
| Evaluation.PrefixOperation | src/Monkey/Evaluator.cs:84-92 | a prefix operator other than `!` and `-` gives the Error `unknown operator: OP T`, T being the operand's type name |
| Evaluation.IntegerInfix | src/Monkey/Evaluator.cs:126-140 | integer arithmetic throws exactly on `/` by zero or `long.MinValue / -1` |
| Evaluation.InfixOperation | src/Monkey/Evaluator.cs:114-124 | only two integers can throw; on other operands `==` and `!=` compare identity, and every other operator is `type mismatch: L op R` when the operand types differ and `unknown operator: L op R` when they agree |
| Evaluation.EvalExpression | src/Monkey/Evaluator.cs:17-41 | every expression evaluates to an integer, boolean, null, error or wrapped return value, or throws one of the two exceptions of `long` division and nothing else |
| Evaluation.EvalStatement | src/Monkey/Evaluator.cs:16-23 | every statement evaluates to an integer, boolean, null, error or wrapped return value, or throws one of the two exceptions of `long` division |
| Evaluation.Eval | src/Monkey/Evaluator.cs:12-43 | evaluating any node yields only the objects those node kinds produce or a division exception, and an empty program yields Null |
| Evaluation.EvalProgram | src/Monkey/Evaluator.cs:45-61 | the loop yields what evaluating the program node yields, and a ReturnValue result can come only from a non-empty program |
| Evaluation.EvalBlockStatements | src/Monkey/Evaluator.cs:63-80 | the loop yields what evaluating the block yields, and an empty block yields Null |
| Evaluation.ProgramRunUnwraps | src/Monkey/Evaluator.cs:51-54 | a program yields a ReturnValue only when some statement returned a ReturnValue nested in another; an empty program yields Null |
| Evaluation.ReturnStopsProgram | src/Monkey/Evaluator.cs:51-54 | a return stops the program, whose value is the returned value, unwrapped; nothing after it is evaluated |
| Evaluation.ReturnStopsBlock | src/Monkey/Evaluator.cs:70-73 | a return stops a block and stays wrapped, so the enclosing blocks stop too |
| Evaluation.LeftErrorShortCircuits | src/Monkey/Evaluator.cs:31-39 | an Error in the left operand is the infix expression's value, whatever the right operand is |
| Evaluation.ConditionErrorShortCircuits | src/Monkey/Evaluator.cs:144-146 | an Error in the condition is the value of the `if` |
| Evaluation.IfChoosesBranch | src/Monkey/Evaluator.cs:142-154 | `if` picks the consequence when the condition is truthy, the alternative when falsy and present, and Null otherwise |
| Evaluation.IntegerComparisons | src/Monkey/Evaluator.cs:134-137 | on integers `<` is `>` with the operands swapped, and `==`/`!=` compare values |
| Evaluation.IntegerArithmetic | src/Monkey/Evaluator.cs:130-132 | `+`, `-`, `*` agree with mathematics when the result fits a long, and wrap modulo 2^64 otherwise |
| Evaluation.IntegerDivision | src/Monkey/Evaluator.cs:133 | `/` truncates toward zero |
| Evaluation.BooleanEquality | src/Monkey/Evaluator.cs:119-120 | two booleans are `==` exactly when their values agree |
| Evaluation.NestedReturn | src/Monkey/Evaluator.cs:63-80 | a return in an inner `if` block stops the outer block too: the program yields 10, not 1 |
| Evaluation.TypeMismatchMessage | src/Monkey/Evaluator.cs:121 | `5 + true` is the Error `type mismatch: Integer + Boolean` |
| Evaluation.UnknownOperatorMessage | src/Monkey/Evaluator.cs:122 | `true + false` is the Error `unknown operator: Boolean + Boolean` |
| Builtins.Get | src/Monkey/Builtins.cs:10-21 | a name finds a builtin only if that builtin is registered under that name |
| Builtins.GetName | src/Monkey/Builtins.cs:10-21 | lookup and registration are inverse: each builtin is found under its own name, and under no other |
| Builtins.LenOf | src/Monkey/Builtins.cs:23-33 | `len` of one argument is its length: the UTF-16 code units of a string, the elements of an array, the pairs of a hash; of anything else the Error `` argument to `len` not supported, got T ``; any other argument count is the arity Error |
| Builtins.Utf16Length | src/Monkey/Builtins.cs:27 | a string has between one and two code units per character |
| Builtins.Utf16LengthOfPlane | src/Monkey/Builtins.cs:27 | a string of Basic Multilingual Plane characters has exactly one code unit per character |
| Builtins.Utf16LengthAppend | src/Monkey/Builtins.cs:27 | the code units of a concatenation are those of its parts |
| Builtins.FirstOf | src/Monkey/Builtins.cs:35-44 | `first` of a non-empty array is its element 0, of a non-array the Error `` argument to `first` must be Array, got T ``, and a wrong argument count the arity Error |
| Builtins.LastOf | src/Monkey/Builtins.cs:46-55 | `last` of a non-empty array is its final element, of a non-array the Error `` argument to `last` must be Array, got T ``, and a wrong argument count the arity Error |
| Builtins.RestOf | src/Monkey/Builtins.cs:57-66 | `rest` gives an array one shorter than its argument, the Error `` argument to `rest` must be Array, got T `` for a non-array, and the arity Error for a wrong count |
| Builtins.PushOf | src/Monkey/Builtins.cs:68-80 | `push` throws only on a hash whose key is already present with a different value, with the duplicate-key exception; no arguments, a first argument that is neither Array nor Hash, an unhashable key and a wrong count each give their Error; a successful push onto a hash maps the key to the item |
| Builtins.KeySeq | src/Monkey/Builtins.cs:86 | the enumerated keys are exactly the dictionary's keys, each once |
| Builtins.KeysOf | src/Monkey/Builtins.cs:82-90 | `keys` of a hash is an array with one element per pair, of anything else the Error `` argument to `keys` must be Hash, got T ``, and a wrong count the arity Error |
| Builtins.KeysElements | src/Monkey/Builtins.cs:86 | every element `keys` returns is a key of the hash, and every key of the hash is among them |
| Builtins.Apply | src/Monkey/Builtins.cs:10-100 | only `push` can throw |
| Builtins.PushArrayLaws | src/Monkey/Builtins.cs:73 | `push` onto an array appends the item, adds one to `len`, and `last` of the result is the item |
| Builtins.FirstRestSplit | src/Monkey/Builtins.cs:39-61 | `first` followed by `rest` gives back a non-empty array's elements |
| Builtins.EmptyArrayGivesNull | src/Monkey/Builtins.cs:40-62 | `first`, `last` and `rest` of an empty array are Null |
| Builtins.KeysLen | src/Monkey/Builtins.cs:86 | `keys` of a hash has the hash's `len` |
| Builtins.PushedKeyIsKey | src/Monkey/Builtins.cs:75 | pushing a pair with a new key adds that pair, and the key is then among the hash's `keys` |
| Builtins.PushArity | src/Monkey/Builtins.cs:74 | `push` on an array with other than one further argument reports the full argument count against want=2 |
| Symbols.DefineAll | src/Monkey/SymbolTable.cs:33-45 | defining a list of names yields one symbol per name |
| Symbols.SymbolTable.States | src/Monkey/SymbolTable.cs:18 | the chain holds one state per table, this table's first |
| Symbols.SymbolTable.constructor | src/Monkey/SymbolTable.cs:25 | a new outermost table has no enclosing table and is empty |
| Symbols.SymbolTable.Enclosed | src/Monkey/SymbolTable.cs:23 | an enclosed table starts empty, with the given table as its enclosing one |
| Symbols.SymbolTable.Define | src/Monkey/SymbolTable.cs:33-45 | the symbol is Global in an outermost table and Local otherwise, numbered by the counter, which then advances; the binding replaces any earlier one, so `NumberOfDefinitions` grows only for a new name |
| Symbols.SymbolTable.DefineBuiltin | src/Monkey/SymbolTable.cs:47-52 | a Builtin symbol with the given index is bound to the name, and the counter stays |
| Symbols.SymbolTable.DefineFunctionName | src/Monkey/SymbolTable.cs:54-59 | a Function symbol with index 0 is bound to the name, and the counter stays |
| Symbols.SymbolTable.DefineFree | src/Monkey/SymbolTable.cs:61-69 | the original goes to the end of the free list, and a Free symbol indexed by its position there is bound to its name |
| Symbols.SymbolTable.Resolve | src/Monkey/SymbolTable.cs:71-96 | the recursive method changes every table of the chain exactly as the resolution specification says; `FreeSymbols` either stays or gains one symbol, and then the result is the Free symbol at its position |
| Symbols.SymbolTable.NewEnclosedTable | src/Monkey/SymbolTable.cs:98-101 | the new table is empty and enclosed in this one |
| Symbols.BindingCounts | src/Monkey/SymbolTable.cs:27 | `NumberOfDefinitions` counts bound names: each of `Define`, `DefineBuiltin`, `DefineFunctionName` and `DefineFree` adds one exactly when the name was unbound, and a redefinition adds none |
| Symbols.ResolveFreeSymbols | src/Monkey/SymbolTable.cs:31 | after a resolution the innermost table's `FreeSymbols` is unchanged, or has the symbol the enclosing tables found appended, with the result the Free symbol at that position |
| Symbols.DefineAllNumbers | src/Monkey/SymbolTable.cs:41-43 | successive definitions are numbered in order from the counter on, which advances by one for each |
| Symbols.SiblingsNumberFromZero | src/Monkey/SymbolTable.cs:98-101 | two sibling enclosed tables each number their locals from 0 |
| Symbols.RedefineLastWins | src/Monkey/SymbolTable.cs:41-43 | defining a name twice binds the second symbol, whose index is one more, advances the counter twice and binds no more names |
| Symbols.DefineThenResolve | src/Monkey/SymbolTable.cs:33-76 | a name just defined by any of the three definitions resolves to the symbol the definition returned, changing nothing |
| Symbols.ResolveOwnBinding | src/Monkey/SymbolTable.cs:73-76 | a name the table binds itself resolves to that binding, and nothing is captured |
| Symbols.ResolveFindsBound | src/Monkey/SymbolTable.cs:71-96 | resolution finds a symbol exactly when some table of the chain binds the name |
| Symbols.ResolveGlobalOrBuiltin | src/Monkey/SymbolTable.cs:87-90 | a Global or Builtin symbol from an enclosing table is returned as it is, and this table is left unchanged |
| Symbols.ResolveCaptures | src/Monkey/SymbolTable.cs:61-69 | any other symbol from an enclosing table is captured: the original is appended to the free list, and the result is the Free symbol at that position, bound in this table |
| Symbols.ResolveKeepsNames | src/Monkey/SymbolTable.cs:61-96 | resolution keeps every binding under its own name, and what it finds is named as asked |
| Symbols.ResolveOnlyCaptures | src/Monkey/SymbolTable.cs:71-96 | resolution moves no counter, only appends to free lists, and changes no binding of another name |
| Symbols.ResolveTwice | src/Monkey/SymbolTable.cs:71-96 | resolving a name again gives the same symbol and changes nothing more |
| Symbols.NestedResolution | src/Monkey/SymbolTable.cs:71-96 | from the innermost of three tables a global resolves as Global 0, an own local as Local 0, and a middle-table local is captured as Free 0 |
| Lexing.RunLength | src/Monkey/Lexer.cs:62-84 | the run covers only characters of the class and stops at the first character outside it or at the end |
| Lexing.TokenOnLetter | src/Monkey/Lexer.cs:45-52 | on a letter, the token's literal is the whole run of letters there, at least one, typed by the keyword lookup and never EndOfFile; the run stops at the end or at a non-letter |
| Lexing.TokenOnDigit | src/Monkey/Lexer.cs:54-60 | on a digit, the token's literal is the whole run of digits there, at least one, typed Int; the run stops at the end or at a non-digit |
| Lexing.TokenAt | src/Monkey/Lexer.cs:25-60 | the token's literal is exactly the input it consumed, at least one character; it is a punctuation, keyword, identifier, integer or one-character illegal token, and a letter or digit run is maximal |
| Lexing.Lex | src/Monkey/Lexer.cs:14-43 | the stream is never empty |
| Lexing.LexRound | src/Monkey/Lexer.cs:17-39 | one round of the loop skips white space and emits the token at that point, then continues after it |
| Lexing.LexAtEnd | src/Monkey/Lexer.cs:19-42 | once only white space is left, the stream is the single EndOfFile token |
| Lexing.PrependShaped | src/Monkey/Lexer.cs:39 | yielding one more well-shaped token before a stream that ends with one EndOfFile keeps it ending so |
| Lexing.LexEndsOnce | src/Monkey/Lexer.cs:14-43 | the stream ends with exactly one EndOfFile token, with an empty literal, and every other token is well shaped |
| Lexing.Strip | src/Monkey/Lexer.cs:19 | removing white space keeps no white space and never lengthens the text |
| Lexing.StripAppend | src/Monkey/Lexer.cs:19 | stripping a concatenation concatenates the stripped parts |
| Lexing.StripKeepsOrDrops | src/Monkey/Lexer.cs:19 | text without white space is kept whole, and text of white space alone vanishes |
| Lexing.StripSkipped | src/Monkey/Lexer.cs:62-68 | skipping white space loses nothing the stripped text keeps |
| Lexing.TokenHasNoWhiteSpace | src/Monkey/Lexer.cs:25-38 | no token's literal contains white space |
| Lexing.StripToken | src/Monkey/Lexer.cs:25-38 | the stripped text from a token on is the token's literal followed by the stripped rest |
| Lexing.SpellingCons | src/Monkey/Lexer.cs:39 | the spelling of a stream is its first literal followed by the spelling of the rest |
| Lexing.LexSpellsInput | src/Monkey/Lexer.cs:14-43 | the literals of the stream spell the input with its white space removed: nothing is lost, duplicated or reordered |
| Lexing.Lexer.constructor | src/Monkey/Lexer.cs:10 | the lexer holds the input it was given |
| Lexing.Lexer.GetTokens | src/Monkey/Lexer.cs:14-43 | the loop yields exactly the specified token stream |
| Lexing.Lexer.ScanToken | src/Monkey/Lexer.cs:23-38 | the switch on the current character yields the specified token and next position |
| Lexing.Lexer.GetTokenOnLetter | src/Monkey/Lexer.cs:45-52 | a maximal run of letters, typed by the keyword lookup, and the position after it |
| Lexing.Lexer.GetTokenOnDigit | src/Monkey/Lexer.cs:54-60 | a maximal run of digits as an integer token, and the position after it |
| Lexing.Lexer.GetWhiteSpaceLength | src/Monkey/Lexer.cs:62-68 | the length of the maximal run of white space |
| Lexing.Lexer.GetIdentifierLength | src/Monkey/Lexer.cs:70-76 | the length of the maximal run of letters |
| Lexing.Lexer.GetNumberLength | src/Monkey/Lexer.cs:78-84 | the length of the maximal run of digits |
| Lexing.For | src/Monkey/Lexer.cs:12 | a new lexer over the given input |
| MacroDefinition.TryGetMacroDefinition | src/Monkey/MacroExpansion.cs:24-31 | a statement defines a macro exactly when it is a `let` of a macro literal, and the definition is its name, parameters and body |
| MacroDefinition.Definitions | src/Monkey/MacroExpansion.cs:13-16 | a program has no more definitions than statements |
| MacroDefinition.RemainingIsTheRest | src/Monkey/MacroExpansion.cs:21 | the program left over keeps exactly the statements that define no macro, and with the definitions accounts for every statement |
| MacroDefinition.DefinitionsComeFromLets | src/Monkey/MacroExpansion.cs:13-31 | every definition comes from a `let` of a macro literal in the program, and a program without one is left as it is |
| MacroDefinition.PassSplits | src/Monkey/MacroExpansion.cs:13-21 | the pass keeps program order: over two runs of statements it is the pass over each, concatenated |
| MacroDefinition.BindAllSucceeds | src/Monkey/MacroExpansion.cs:13-36 | binding the definitions succeeds exactly when their names are new to the environment and to each other |
| MacroDefinition.BindAllKeeps | src/Monkey/MacroExpansion.cs:33-36 | names bound before keep their binding, and every new name is a defined macro's |
| MacroDefinition.BindAllBinds | src/Monkey/MacroExpansion.cs:33-36 | when nothing clashes, each name is bound to its macro, closed over the environment |
| MacroDefinition.AddMacro | src/Monkey/MacroExpansion.cs:33-36 | a new name is bound to a macro closed over the environment; a name already bound throws and changes nothing |
| MacroDefinition.DefineMacros | src/Monkey/MacroExpansion.cs:11-22 | the environment gets the bindings in program order; the result is the program without its definitions, or the duplicate-key exception if a name clashes |
| Parsing.Pull | src/Monkey/Parser.cs:40-42 | pulling past the end of the stream gives an EndOfFile token with an empty literal, and otherwise the stream's next token |
| Parsing.NextSemicolon | src/Monkey/Parser.cs:95-98 | the skip loop stops on a semicolon at or after where it starts |
| Parsing.NextSemicolonIsFirst | src/Monkey/Parser.cs:95-98 | the skip loop stops on the first semicolon, passing no other |
| Parsing.Messages | src/Monkey/Parser.cs:138-141 | each failure records one message |
| Parsing.MessagesAppend | src/Monkey/Parser.cs:140 | the messages of failures recorded one after another are the messages of each, in order |
| Parsing.ParseLetAt | src/Monkey/Parser.cs:76-101 | a `let` never moves the parser backwards |
| Parsing.ParseReturnAt | src/Monkey/Parser.cs:103-118 | a `return` always moves the parser forward |
| Parsing.ParseStatementAt | src/Monkey/Parser.cs:61-74 | a statement attempt never moves the parser backwards |
| Parsing.LetOutcome | src/Monkey/Parser.cs:76-101 | a `let` parses exactly when nothing fails, and then ends on a semicolon with the identifier as name; without an identifier it records that and stays on the `let`; without `=` it records that and stays on the identifier |
| Parsing.ReturnOutcome | src/Monkey/Parser.cs:103-118 | a `return` always parses, without failure, and ends on the first semicolon after it |
| Parsing.AttemptShape | src/Monkey/Parser.cs:61-74 | only `let` and `return` start a statement, anything else is skipped without failure, and a failure is a missing identifier or `=` |
| Parsing.ParseInOrder | src/Monkey/Parser.cs:48-56 | the program from a position is the statement there, if any, followed by the program after its last token, and likewise for the failures |
| Parsing.ParsedProgramShape | src/Monkey/Parser.cs:44-118 | every statement of a parsed program is a `let` or a `return` as the parser builds them, and every recorded failure is a missing identifier or `=` |
| Parsing.LetParses | src/Monkey/Parser.cs:76-101 | a well-formed `let` parses to one statement, with nothing failing, named by its identifier and ending on a semicolon |
| Parsing.LoopStep | src/Monkey/Parser.cs:48-56 | one round of the loop adds the statement if any and the failures, then moves one past the statement's last token |
| Parsing.AdvanceRound | src/Monkey/Parser.cs:50-55 | after one statement attempt and a step past its last token, the loop from the new position with the statement and failures added has the outcome of the loop from the old position |
| Parsing.RecordRound | src/Monkey/Parser.cs:138-141 | messages recorded before a round followed by the round's messages are the messages of all failures recorded so far |
| Parsing.LetTokensFromStream | src/Monkey/Parser.cs:78 | every `let` statement of a parsed program carries a token taken from the stream |
| Parsing.LoopGathers | src/Monkey/Parser.cs:44-59 | the loop appends the program parsed from its position to what it has gathered |
| Parsing.NothingPastTheEnd | src/Monkey/Parser.cs:40-42 | past the end of the stream the program is empty and nothing fails |
| Parsing.LetThenReturnTokens | src/Monkey/Parser.cs:95-98 | the nine tokens of `let x = 5; return 5;` have a semicolon after each statement start |
| Parsing.LetThenReturnFirst | src/Monkey/Parser.cs:76-101 | the `let` of `let x = 5; return 5;` binds x and ends at its semicolon |
| Parsing.LetThenReturnSecond | src/Monkey/Parser.cs:103-118 | the `return` of `let x = 5; return 5;` is the rest of the program |
| Parsing.LetThenReturn | src/Monkey/Parser.cs:44-118 | `let x = 5; return 5;` parses to the two statements, in order, with no errors |
| Parsing.LetWithoutAssign | src/Monkey/Parser.cs:76-91 | `let x` with no `=` and no semicolon ends: one missing-`=` failure and an empty program |
| Parsing.Impl.constructor | src/Monkey/Parser.cs:25-32 | the parser starts with the first two tokens pulled, at position 0, with the given error list |
| Parsing.Impl.PullToken | src/Monkey/Parser.cs:40-42 | the next token of the stream, or EndOfFile past its end, and one more token pulled |
| Parsing.Impl.NextToken | src/Monkey/Parser.cs:34-38 | the peek token becomes the current one and the next token is pulled |
| Parsing.Impl.CurrentTokenIs | src/Monkey/Parser.cs:120 | true exactly when the current token has the type |
| Parsing.Impl.PeekTokenIs | src/Monkey/Parser.cs:122 | true exactly when the peek token has the type |
| Parsing.Impl.ExpectPeek | src/Monkey/Parser.cs:124-136 | advances one token exactly when the peek token has the expected type; otherwise records the peek error and stays |
| Parsing.Impl.PeekError | src/Monkey/Parser.cs:138-141 | appends `expected next token to be T, got U instead` and changes nothing else |
| Parsing.Impl.SkipToSemicolon | src/Monkey/Parser.cs:95-98 | the skip loop ends on the next semicolon and records nothing |
| Parsing.Impl.ParseLetStatement | src/Monkey/Parser.cs:76-101 | the method returns the statement, ends at the position, and records the messages, that the `let` specification gives |
| Parsing.Impl.ParseReturnStatement | src/Monkey/Parser.cs:103-118 | the method returns the statement, ends at the position, and records the messages, that the `return` specification gives |
| Parsing.Impl.ParseStatement | src/Monkey/Parser.cs:61-74 | the method returns the statement, ends at the position, and records the messages, that the statement specification gives |
| Parsing.Impl.ParseAndAdvance | src/Monkey/Parser.cs:50-55 | one round of the loop moves the parser forward and leaves the remaining loop with the same outcome |
| Parsing.Impl.ParseProgram | src/Monkey/Parser.cs:44-59 | the program's statements and the recorded errors are the ones the parse specification gives from the current position |
| Parsing.Parser.constructor | src/Monkey/Parser.cs:7 | the parser holds the lexer it was given |
| Parsing.Parser.ParseProgram | src/Monkey/Parser.cs:9-15 | the program and the errors are those parsed from the lexer's whole token stream, and every statement is well parsed |

## Left out

- Console and file I/O: `Puts` writes to the console, so `Builtins.Apply` only returns Null for it. The REPL, the interpreter front ends and the benchmark are not part of this model.
- `MacroExpansion.ExpandMacros` and its helpers are left out. They depend on an AST `Transform`, `Quote` objects and an environment-taking `Eval`, and none of those is in the source files.
- ArrayExtensions.cs is not part of this model. The VM's instruction segment is a sequence, and reading past its end throws `ArgumentOutOfRange`.
- Unicode: `char.IsLetter`, `char.IsDigit` and `char.IsWhiteSpace` are the parameter `Lexing.CharClasses`. The lemmas about spelling assume only that white space is neither a letter nor a digit. Strings are sequences of Unicode scalar values, with no normalisation, while .NET strings are UTF-16 code units. `len` counts code units through `Builtins.Utf16Length`.
- Lexing.Lex: a character beyond the Basic Multilingual Plane (U+10000 and above) is one character here, but two surrogate code units in C#. The C# lexer classifies each surrogate on its own and makes two Illegal tokens of them, where the model classifies the one character.
- Laziness: `GetTokens` yields its tokens lazily, and the parser pulls them through an enumerator. Here the whole stream is computed first, and the parser holds it with a count of pulled tokens. Since the lexer has no side effects, the tokens are the same.
- Dictionary order: `ImmutableDictionary` promises no key order. Hashes are maps, and `keys` returns some enumeration of the key set (`Builtins.KeySeq`), so the order is not modelled.
- Non-termination: a backward `Jump` can make `Run` loop forever, so `Exec` and `Machine.Vm.Run` take a step budget and end in `OutOfFuel` when it runs out. `Execution.MoreFuelSameRun` shows that a larger budget never changes a run that finished.
- Null elements: an `Array` or `Hash` instruction whose elements include a C# null reference (an unset global) ends the run as `Unmodelled`, because the model's objects cannot hold null.
- Host endianness: `ToBigEndian` reverses `BitConverter` bytes on a little-endian host, and the model assumes such a host.
- Aliasing: `GetByteCode` hands out the compiler's live lists, and a VM built from them sees later compilation. The model copies the bytecode into the VM as a value. The VM copies the instruction bytes too, so only the constant pool would be shared.
- `NewWithGlobalStore` with a null globals array is not modelled: the array parameter is non-null.
- Parser error text: the specification functions record failed `ExpectPeek`s as `PeekFailure` values. `Parsing.Messages` renders them as `expected next token to be X, got Y instead`, and the parser methods append exactly those strings.
- Helper methods: a few methods exist only to keep proofs small. `SkipToSemicolon`, `ParseAndAdvance`, `ScanToken`, `ReadOperand`, `ExecuteAt`, `ExecuteSetGlobal`, `ExecuteArray` and `ExecuteHash` each hold a piece of code that is inline in the C# method they are named after.
- Parsing.Impl.ParseProgram: requires that every statement attempt ends (`SemicolonsFollow`). A `return`, and a `let` followed by an identifier and `=`, need a later semicolon. Without one the C# skip loop never ends, because past the end of the stream it sees only EndOfFile. A `let` that fails its `ExpectPeek` needs none, since it returns before the loop. The condition also covers tokens after an EndOfFile in the middle of a stream, which the parser never reaches; the lexer puts EndOfFile only at the end.
- Compiler.Compiler.Compile: requires the pool to stay below 2^31 - 1 constants. `AddConstant` returns an `int` index, and a .NET list cannot grow past that.
- Execution.PushFresh: its contract states only that the state stays well formed and the globals untouched. What it pushes is stated by `Machine.Vm.PushNew` and the lemmas below.
- Execution.IntegerBinaryStep: its contract states only well-formedness. Its results are stated by `Execution.IntegerArithmetic` and `Execution.IntegerDivision`.
- Execution.StringBinaryStep: its contract states only well-formedness. Its results are stated by `Execution.StringOperations`.
- Execution.BinaryStep: its contract states only well-formedness. Its results are stated by `Execution.IntegerArithmetic`, `Execution.StringOperations` and `Execution.MixedOperands`.
- Execution.ComparisonStep: its contract states only well-formedness. Its results are stated by `Execution.IntegerComparison`, `Execution.BooleansCompareByValue` and `Execution.BuiltStringsDiffer`.
- Execution.MinusStep: its contract states only well-formedness. Its results are stated by `Execution.Negation`.
- Execution.BangStep: its contract states only well-formedness. Its results are stated by `Execution.BangIsNotTruthy` and `Execution.BangAgreesWithEvaluator`.
- Execution.ArrayStep: its contract states only well-formedness. Its result is stated by `Execution.ArrayCollects`.
- Execution.HashStep: its contract states only well-formedness. The rejected key is stated by `Execution.HashRejectsKey`, and duplicate values by `Execution.DuplicateArrayValues`. No lemma states the pairs of a successful build beyond `Machine.Vm.BuildHash`'s agreement with `BuildHashFrom`.
- Builtins.PushOf: a key already present keeps its value when the new value is structurally equal. C# compares with record equality, under which two arrays or hashes are equal only when they share their immutable collection. The evaluator's objects carry no identity, so `push({1: [1]}, 1, [1])` returns the hash unchanged here, while C# throws because the two arrays are different objects. The VM does track identity, and `Execution.RecordEquals` models this comparison there.
- Execution.Step: its contract states only well-formedness and the size of the globals. The behaviour of each opcode is stated by the lemmas named above, together with `Execution.PopLeavesLastPopped`, `Execution.ConditionalJump` and `Execution.GlobalRoundTrip`.
- Execution.Exec: its contract states only well-formedness. `Execution.OnePlusTwoRuns` and `Execution.MoreFuelSameRun` state how whole runs end.
- Compiler.CompileExpression: its contract states only that the buffer and the pool grow. The bytes and constants are stated by `Compiler.PoolHoldsLiterals`, `Compiler.IntegerLiteralAddsConstant`, `Compiler.BooleanEmitsOneByte`, `Compiler.LessThanSwaps` and `Compiler.UnknownOperatorKeepsOperands`.
- Compiler.CompileStatement: its contract states only that the buffer and the pool grow. The code is stated by `Compiler.ExpressionStatementPops`.
- Compiler.CompileStatements: its contract states only that the buffer and the pool grow. Its ordering is stated by `Compiler.StatementsCompose`.
- Parsing.ParseLetAt: its contract states only that the parser does not move backwards. The outcomes are stated by `Parsing.LetOutcome`.
- Parsing.ParseReturnAt: its contract states only that the parser moves forward. The outcome is stated by `Parsing.ReturnOutcome`.
- Parsing.ParseStatementAt: its contract states only that the parser does not move backwards. The outcomes are stated by `Parsing.AttemptShape`.
- Lexing.Lex: its contract states only that the stream is non-empty. Its contents are stated by `Lexing.LexEndsOnce` and `Lexing.LexSpellsInput`.
