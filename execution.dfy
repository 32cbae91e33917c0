/** The stack machine's instruction semantics, on values: the state of a
    machine (its stack, stack pointer, globals and allocation counter), the
    effect of one instruction, and a run of many. The `Machine` module's VM
    class is proved to follow these definitions. */
module Execution {
  import opened Wrappers
  import opened Runtime
  import opened Objects
  import opened Code
  import Evaluation

  const StackSize: nat := 2048
  const GlobalsSize: nat := 2048

  /* Identity. Equal and NotEqual on non-integers compare references, so a
     stack slot records which object it holds: one of the three shared
     objects (`_true`, `_false`, `_null`), the constant at an index of a
     machine's pool, or the n-th object a machine allocated. Machines are
     told apart by their own reference, since several machines can share
     one globals array. */

  datatype Ref =
    | TrueRef | FalseRef | NullRef
    | ConstantRef(owner: object, index: nat)
    | FreshRef(owner: object, serial: nat)

  /** A stack or globals slot: C# null, or an object and its identity. */
  datatype Slot = Empty | Boxed(value: Obj, ref: Ref)

  const TrueSlot := Boxed(Boolean(true), TrueRef)
  const FalseSlot := Boxed(Boolean(false), FalseRef)
  const NullSlot := Boxed(Null, NullRef)

  /** `NativeBoolToBooleanObject`: one of the two shared booleans. */
  function NativeBool(b: bool): (s: Slot)
    ensures s.Boxed? && s.value == Boolean(b)
  {
    if b then TrueSlot else FalseSlot
  }

  /** C# `==` on two `IObject` references: both null, or the same object. */
  predicate SameReference(a: Slot, b: Slot) {
    (a.Empty? && b.Empty?) || (a.Boxed? && b.Boxed? && a.ref == b.ref)
  }

  predicate IsInteger(s: Slot) {
    s.Boxed? && s.value.Integer?
  }

  predicate IsString(s: Slot) {
    s.Boxed? && s.value.String?
  }

  /** `IsTruthy`: a boolean is its value, the null object is false, and
      anything else is true, including a null reference, which matches no
      type pattern. */
  predicate IsTruthy(s: Slot) {
    match s
    case Boxed(Boolean(b), _) => b
    case Boxed(Null, _) => false
    case _ => true
  }

  /** What `!` pushes. Booleans are records, so `x == _true` compares values. */
  predicate BangOf(s: Slot) {
    match s
    case Boxed(Boolean(b), _) => !b
    case Boxed(Null, _) => true
    case _ => false
  }

  datatype VmState = VmState(stack: seq<Slot>, sp: int, globals: seq<Slot>, serial: nat)

  /** A 2048-slot stack with the stack pointer inside it. */
  predicate WellFormed(st: VmState) {
    |st.stack| == StackSize && 0 <= st.sp <= StackSize
  }

  /** How an instruction ends: on to an instruction offset, with an error
      message that `Run` returns, with an exception, or in a state this
      model does not represent (a null reference inside an array or hash). */
  datatype Effect = Continue(ip: nat) | Halt(error: string) | Raise(exception: Exception) | Outside

  datatype StepResult = StepResult(effect: Effect, state: VmState)

  /** `Push`: fails with `stack overflow` on a full stack, changing nothing. */
  function PushStep(st: VmState, slot: Slot, next: nat): (r: StepResult)
    requires WellFormed(st)
    ensures WellFormed(r.state) && r.state.globals == st.globals
    ensures r.effect.Continue? <==> st.sp < StackSize
    ensures r.effect.Continue? ==>
      r.effect.ip == next && r.state.sp == st.sp + 1 && StackTop(r.state) == slot
      && r.state.stack[..st.sp] == st.stack[..st.sp]
    ensures !r.effect.Continue? ==> r.effect == Halt("ERROR: stack overflow") && r.state == st
  {
    if st.sp >= StackSize then StepResult(Halt("ERROR: stack overflow"), st)
    else StepResult(Continue(next), st.(stack := st.stack[st.sp := slot], sp := st.sp + 1))
  }

  /** Pushing a newly allocated object, which gets the machine's next serial number. */
  function PushFresh(owner: object, st: VmState, value: Obj, next: nat): (r: StepResult)
    requires WellFormed(st)
    ensures WellFormed(r.state) && r.state.globals == st.globals
  {
    PushStep(st.(serial := st.serial + 1), Boxed(value, FreshRef(owner, st.serial)), next)
  }

  /** The two-byte operand after the opcode at `ip`; past the end of the
      instructions the segment indexer throws. */
  function Operand(code: seq<byte>, ip: nat): (r: Result<nat, Exception>)
    requires ip < |code|
    ensures r.Success? <==> ip + 2 < |code|
    ensures r.Failure? ==> r.error == ArgumentOutOfRange
    ensures r.Success? ==> r.value < 0x1_0000
  {
    if ip + 2 < |code| then Success(ReadUint16(code[ip + 1..])) else Failure(ArgumentOutOfRange)
  }

  function Throw(e: Exception, st: VmState): StepResult {
    StepResult(Raise(e), st)
  }

  /** `ExecuteBinaryIntegerOperation`: unchecked `+ - *` and truncating `/`. */
  function IntegerBinaryStep(op: Opcode, a: int64, b: int64, owner: object, st: VmState, next: nat): (r: StepResult)
    requires WellFormed(st)
    ensures WellFormed(r.state) && r.state.globals == st.globals
  {
    if op == Add then PushFresh(owner, st, Integer(Wrap64(a as int + b as int)), next)
    else if op == Sub then PushFresh(owner, st, Integer(Wrap64(a as int - b as int)), next)
    else if op == Mul then PushFresh(owner, st, Integer(Wrap64(a as int * b as int)), next)
    else if op == Div then
      match Div64(a, b)
      case Success(q) => PushFresh(owner, st, Integer(q), next)
      case Failure(e) => Throw(e, st)
    else StepResult(Halt("ERROR: unknown integer operator: " + OpcodeName(op)), st)
  }

  /** `ExecuteBinaryStringOperation`: only `+`, which concatenates. */
  function StringBinaryStep(op: Opcode, a: string, b: string, owner: object, st: VmState, next: nat): (r: StepResult)
    requires WellFormed(st)
    ensures WellFormed(r.state) && r.state.globals == st.globals
  {
    if op != Add then StepResult(Halt("ERROR: unknown string operator: " + OpcodeName(op)), st)
    else PushFresh(owner, st, String(a + b), next)
  }

  /** `ExecuteBinaryOperation`: pops the right operand, then the left (a
      pop below the bottom throws, and by then the stack is empty).
      Mixed or unsupported operands are an error whose message names both
      .NET types, which throws for a null reference. */
  function BinaryStep(op: Opcode, owner: object, st: VmState, next: nat): (r: StepResult)
    requires WellFormed(st)
    ensures WellFormed(r.state) && r.state.globals == st.globals
  {
    if st.sp < 2 then Throw(IndexOutOfRange, st.(sp := 0))
    else
      var right := st.stack[st.sp - 1];
      var left := st.stack[st.sp - 2];
      var popped := st.(sp := st.sp - 2);
      if IsInteger(left) && IsInteger(right) then
        IntegerBinaryStep(op, left.value.intValue, right.value.intValue, owner, popped, next)
      else if IsString(left) && IsString(right) then
        StringBinaryStep(op, left.value.chars, right.value.chars, owner, popped, next)
      else if left.Empty? || right.Empty? then Throw(NullReference, popped)
      else StepResult(Halt("ERROR: Unsupported types for binary operation: "
                           + ClassName(left.value) + " " + ClassName(right.value)), popped)
  }

  /** `ExecuteComparison`: integers compare by value; otherwise Equal and
      NotEqual compare references and GreaterThan is an error. */
  function ComparisonStep(op: Opcode, st: VmState, next: nat): (r: StepResult)
    requires WellFormed(st)
    ensures WellFormed(r.state) && r.state.globals == st.globals
  {
    if st.sp < 2 then Throw(IndexOutOfRange, st.(sp := 0))
    else
      var right := st.stack[st.sp - 1];
      var left := st.stack[st.sp - 2];
      var popped := st.(sp := st.sp - 2);
      if IsInteger(left) && IsInteger(right) then
        var a, b := left.value.intValue, right.value.intValue;
        if op == Equal then PushStep(popped, NativeBool(a == b), next)
        else if op == NotEqual then PushStep(popped, NativeBool(a != b), next)
        else if op == GreaterThan then PushStep(popped, NativeBool(a > b), next)
        else StepResult(Halt("ERROR: unknown operator: " + OpcodeName(op)), popped)
      else if op == Equal then PushStep(popped, NativeBool(SameReference(left, right)), next)
      else if op == NotEqual then PushStep(popped, NativeBool(!SameReference(left, right)), next)
      else if left.Empty? || right.Empty? then Throw(NullReference, popped)
      else StepResult(Halt("ERROR: unknown operator: " + OpcodeName(op)
                           + " (" + ClassName(left.value) + " " + ClassName(right.value) + ")"), popped)
  }

  /** `ExecuteMinusOperator`: negates an integer, with wrap-around. */
  function MinusStep(owner: object, st: VmState, next: nat): (r: StepResult)
    requires WellFormed(st)
    ensures WellFormed(r.state) && r.state.globals == st.globals
  {
    if st.sp < 1 then Throw(IndexOutOfRange, st)
    else
      var operand := st.stack[st.sp - 1];
      var popped := st.(sp := st.sp - 1);
      if IsInteger(operand) then PushFresh(owner, popped, Integer(Wrap64(-(operand.value.intValue as int))), next)
      else if operand.Empty? then Throw(NullReference, popped)
      else StepResult(Halt("ERROR: unsupported type for negation: " + ClassName(operand.value)), popped)
  }

  /** `ExecuteBangOperator`. */
  function BangStep(st: VmState, next: nat): (r: StepResult)
    requires WellFormed(st)
    ensures WellFormed(r.state) && r.state.globals == st.globals
  {
    if st.sp < 1 then Throw(IndexOutOfRange, st)
    else PushStep(st.(sp := st.sp - 1), NativeBool(BangOf(st.stack[st.sp - 1])), next)
  }

  /** The elements of an array under construction; None when one of them is
      a null reference, which the `Array` object of this model cannot hold. */
  function Values(slots: seq<Slot>): (r: Option<seq<Obj>>)
    ensures r.Some? ==> |r.value| == |slots|
    ensures r.Some? ==> forall i | 0 <= i < |slots| :: slots[i].Boxed? && slots[i].value == r.value[i]
    ensures r.None? ==> exists i | 0 <= i < |slots| :: slots[i].Empty?
    decreases |slots|
  {
    if slots == [] then Some([])
    else if slots[0].Empty? then None
    else match Values(slots[1..])
      case None => None
      case Some(rest) => Some([slots[0].value] + rest)
  }

  /** Reading one more slot extends the values by its object, unless it is
      a null reference. */
  lemma {:induction false} ValuesAppend(slots: seq<Slot>, last: Slot)
    requires Values(slots).Some? && last.Boxed?
    ensures Values(slots + [last]) == Some(Values(slots).value + [last.value])
    decreases |slots|
  {
    if slots == [] {
      assert slots + [last] == [last] && [last][0] == last && [last][1..] == [];
      assert Values([]) == Some([]);
      assert Values([last]) == Some([last.value] + []);
      assert [last.value] + [] == [] + [last.value];
    } else {
      assert (slots + [last])[0] == slots[0] && (slots + [last])[1..] == slots[1..] + [last];
      ValuesAppend(slots[1..], last);
      var head, rest := slots[0].value, Values(slots[1..]).value;
      assert Values(slots).value == [head] + rest;
      assert Values(slots + [last]).value == [head] + (rest + [last.value]);
      assert [head] + (rest + [last.value]) == [head] + rest + [last.value];
    }
  }

  /** `Array n`: the top n slots, bottom first, replaced by one new array. */
  function ArrayStep(n: nat, owner: object, st: VmState, next: nat): (r: StepResult)
    requires WellFormed(st)
    ensures WellFormed(r.state) && r.state.globals == st.globals
  {
    var start := st.sp - n;
    if start < 0 then Throw(IndexOutOfRange, st)
    else match Values(st.stack[start..st.sp])
      case None => StepResult(Outside, st)
      case Some(elements) => PushFresh(owner, st.(sp := start), Array(elements), next)
  }

  /** The outcome of `BuildHash`. */
  datatype HashBuild = HashBuilt(pairs: map<HashKey, Obj>) | HashRejected(error: string) | HashThrew(exception: Exception) | HashOutside

  /** The record equality `ImmutableDictionary.Add` applies to the value
      already under a key and the new one. Records compare field by field:
      integers, booleans, null and strings by value, while an array or a
      hash compares its immutable collection by reference. Every non-empty
      collection the VM builds is a new instance and every empty one is the
      shared empty instance, so two arrays (or two hashes) are equal exactly
      when they are the same object or both empty. */
  predicate RecordEquals(a: Obj, aRef: Ref, b: Obj, bRef: Ref) {
    if a.Array? && b.Array? then aRef == bRef || (a.elements == [] && b.elements == [])
    else if a.Hash? && b.Hash? then aRef == bRef || (a.pairs == map[] && b.pairs == map[])
    else a == b
  }

  /** The loop of `BuildHash` from slot `i` on: key and value slots in
      pairs, with the identity of each value gathered beside it. With an odd
      count the last value is read from the slot just above the top, and
      throws past the end of the stack. A key already present keeps its
      value when the new one is equal to it, and throws otherwise. */
  function BuildHashFrom(stack: seq<Slot>, i: int, end: int, pairs: map<HashKey, Obj>, refs: map<HashKey, Ref>)
    : HashBuild
    requires |stack| == StackSize && end <= StackSize && refs.Keys == pairs.Keys
    decreases end - i
  {
    if i >= end then HashBuilt(pairs)
    else if i < 0 || i + 1 >= StackSize then HashThrew(IndexOutOfRange)
    else
      var key := stack[i];
      var value := stack[i + 1];
      if key.Empty? then HashThrew(NullReference)
      else match KeyOf(key.value)
        case None => HashRejected("ERROR: unusable as hash key " + ClassName(key.value))
        case Some(k) =>
          if value.Empty? then HashOutside
          else if k !in pairs then BuildHashFrom(stack, i + 2, end, pairs[k := value.value], refs[k := value.ref])
          else if RecordEquals(pairs[k], refs[k], value.value, value.ref) then BuildHashFrom(stack, i + 2, end, pairs, refs)
          else HashThrew(DuplicateKey)
  }

  /** `Hash n`: the top n slots, read as key, value, key, value, ...,
      replaced by one new hash; an unhashable key is an error before the
      stack pointer moves. */
  function HashStep(n: nat, owner: object, st: VmState, next: nat): (r: StepResult)
    requires WellFormed(st)
    ensures WellFormed(r.state) && r.state.globals == st.globals
  {
    var start := st.sp - n;
    match BuildHashFrom(st.stack, start, st.sp, map[], map[])
    case HashBuilt(pairs) => PushFresh(owner, st.(sp := start), Hash(pairs), next)
    case HashRejected(error) => StepResult(Halt(error), st)
    case HashThrew(e) => Throw(e, st)
    case HashOutside => StepResult(Outside, st)
  }

  /** One round of the dispatch loop at offset `ip`: the instruction's
      effect and the state after it. The offset to continue at already
      includes the loop's own increment. */
  function Step(code: seq<byte>, consts: seq<Obj>, owner: object, st: VmState, ip: nat): (r: StepResult)
    requires WellFormed(st) && ip < |code|
    ensures WellFormed(r.state) && |r.state.globals| == |st.globals|
  {
    var op := code[ip];
    if op == Constant then
      match Operand(code, ip)
      case Failure(e) => Throw(e, st)
      case Success(index) =>
        if index >= |consts| then Throw(ArgumentOutOfRange, st)
        else PushStep(st, Boxed(consts[index], ConstantRef(owner, index)), ip + 3)
    else if op == Pop then
      if st.sp < 1 then Throw(IndexOutOfRange, st) else StepResult(Continue(ip + 1), st.(sp := st.sp - 1))
    else if op == Add || op == Sub || op == Mul || op == Div then BinaryStep(op, owner, st, ip + 1)
    else if op == True then PushStep(st, TrueSlot, ip + 1)
    else if op == False then PushStep(st, FalseSlot, ip + 1)
    else if op == Equal || op == NotEqual || op == GreaterThan then ComparisonStep(op, st, ip + 1)
    else if op == Minus then MinusStep(owner, st, ip + 1)
    else if op == Bang then BangStep(st, ip + 1)
    else if op == JumpNotTruthy then
      match Operand(code, ip)
      case Failure(e) => Throw(e, st)
      case Success(pos) =>
        if st.sp < 1 then Throw(IndexOutOfRange, st)
        else
          var condition := st.stack[st.sp - 1];
          StepResult(Continue(if IsTruthy(condition) then ip + 3 else pos), st.(sp := st.sp - 1))
    else if op == Jump then
      match Operand(code, ip)
      case Failure(e) => Throw(e, st)
      case Success(pos) => StepResult(Continue(pos), st)
    else if op == Code.Null then PushStep(st, NullSlot, ip + 1)
    else if op == SetGlobal then
      match Operand(code, ip)
      case Failure(e) => Throw(e, st)
      case Success(index) =>
        if st.sp < 1 then Throw(IndexOutOfRange, st)
        else if index >= |st.globals| then Throw(IndexOutOfRange, st.(sp := st.sp - 1))
        else StepResult(Continue(ip + 3), st.(sp := st.sp - 1, globals := st.globals[index := st.stack[st.sp - 1]]))
    else if op == GetGlobal then
      match Operand(code, ip)
      case Failure(e) => Throw(e, st)
      case Success(index) =>
        if index >= |st.globals| then Throw(IndexOutOfRange, st)
        else PushStep(st, st.globals[index], ip + 3)
    else if op == Code.Array then
      match Operand(code, ip)
      case Failure(e) => Throw(e, st)
      case Success(n) => ArrayStep(n, owner, st, ip + 3)
    else if op == Code.Hash then
      match Operand(code, ip)
      case Failure(e) => Throw(e, st)
      case Success(n) => HashStep(n, owner, st, ip + 3)
    else StepResult(Continue(ip + 1), st)
  }

  /** How `Run` ends: it returns null or an error message, or an exception
      escapes it. A run that reaches a state outside the model, or that
      uses up its step budget, is not followed further. */
  datatype RunResult = Finished(error: Option<string>) | Threw(exception: Exception) | Unmodelled | OutOfFuel

  datatype Run = Run(result: RunResult, state: VmState)

  /** `Run` from offset `ip` for at most `fuel` instructions. A backward
      jump can make the C# loop run forever, so the model counts steps. */
  function Exec(code: seq<byte>, consts: seq<Obj>, owner: object, st: VmState, ip: nat, fuel: nat): (r: Run)
    requires WellFormed(st)
    ensures WellFormed(r.state)
    decreases fuel
  {
    if ip >= |code| then Run(Finished(None), st)
    else if fuel == 0 then Run(OutOfFuel, st)
    else
      var s := Step(code, consts, owner, st, ip);
      match s.effect
      case Continue(next) => Exec(code, consts, owner, s.state, next, fuel - 1)
      case Halt(error) => Run(Finished(Some(error)), s.state)
      case Raise(e) => Run(Threw(e), s.state)
      case Outside => Run(Unmodelled, s.state)
  }

  /** `GetStackTop`: null below one element, else the top slot. */
  function StackTop(st: VmState): Slot
    requires WellFormed(st)
  {
    if st.sp < 1 then Empty else st.stack[st.sp - 1]
  }

  /** `GetLastPoppedStackElement`: the slot at the stack pointer, which a
      pop leaves in place; on a full stack the index is past the end. */
  function LastPopped(st: VmState): Result<Slot, Exception>
    requires WellFormed(st)
  {
    if st.sp < StackSize then Success(st.stack[st.sp]) else Failure(IndexOutOfRange)
  }

  // ------------------------------------------------------------- properties

  /** A `Pop` leaves the popped slot where `GetLastPoppedStackElement`
      reads it: the old top of the stack. */
  lemma PopLeavesLastPopped(code: seq<byte>, consts: seq<Obj>, owner: object, st: VmState, ip: nat)
    requires WellFormed(st) && ip < |code| && code[ip] == Pop && 1 <= st.sp
    ensures Step(code, consts, owner, st, ip).effect == Continue(ip + 1)
    ensures LastPopped(Step(code, consts, owner, st, ip).state) == Success(StackTop(st))
  {
  }

  /** `!` pushes the shared boolean the tree-walking evaluator's `!` gives
      for the same object, and truthiness is the evaluator's too. */
  lemma BangAgreesWithEvaluator(s: Slot)
    requires s.Boxed?
    ensures NativeBool(BangOf(s)).value == Evaluation.Bang(s.value)
    ensures IsTruthy(s) == Evaluation.IsTruthy(s.value)
  {
  }

  /** `!x` is the opposite of the truthiness of `x`, even for a null
      reference, which is truthy and negates to false. */
  lemma BangIsNotTruthy(s: Slot)
    ensures BangOf(s) == !IsTruthy(s)
  {
  }

  /** `JumpNotTruthy` pops the condition and goes to its operand exactly
      when the condition is falsy, past its own operand otherwise. */
  lemma ConditionalJump(code: seq<byte>, consts: seq<Obj>, owner: object, st: VmState, ip: nat)
    requires WellFormed(st) && ip + 2 < |code| && code[ip] == JumpNotTruthy && 1 <= st.sp
    ensures var r := Step(code, consts, owner, st, ip);
      r.state == st.(sp := st.sp - 1)
      && r.effect == Continue(if IsTruthy(StackTop(st)) then ip + 3 else code[ip + 1] as int * 256 + code[ip + 2] as int)
  {
  }

  /** Booleans compare by identity, but the two shared objects make that
      the same as comparing their values. */
  lemma BooleansCompareByValue(code: seq<byte>, consts: seq<Obj>, owner: object, st: VmState, ip: nat, a: bool, b: bool)
    requires WellFormed(st) && ip < |code| && code[ip] == Equal && 2 <= st.sp < StackSize
    requires st.stack[st.sp - 2] == NativeBool(a) && st.stack[st.sp - 1] == NativeBool(b)
    ensures Step(code, consts, owner, st, ip).effect == Continue(ip + 1)
    ensures StackTop(Step(code, consts, owner, st, ip).state) == NativeBool(a == b)
  {
  }

  /** Two strings the machine built separately are different objects, so
      `==` on them is false even when their characters agree. */
  lemma BuiltStringsDiffer(code: seq<byte>, consts: seq<Obj>, owner: object, st: VmState, ip: nat, t: string, m: nat, n: nat)
    requires WellFormed(st) && ip < |code| && code[ip] == Equal && 2 <= st.sp < StackSize && m != n
    requires st.stack[st.sp - 2] == Boxed(String(t), FreshRef(owner, m))
    requires st.stack[st.sp - 1] == Boxed(String(t), FreshRef(owner, n))
    ensures StackTop(Step(code, consts, owner, st, ip).state) == FalseSlot
  {
  }

  /** `+`, `-` and `*` on two integers replace them with one new integer
      holding the 64-bit wrapped result. */
  lemma IntegerArithmetic(code: seq<byte>, consts: seq<Obj>, owner: object, st: VmState, ip: nat, a: int64, b: int64)
    requires WellFormed(st) && ip < |code| && (code[ip] == Add || code[ip] == Sub || code[ip] == Mul) && 2 <= st.sp
    requires st.stack[st.sp - 2].Boxed? && st.stack[st.sp - 2].value == Integer(a)
    requires st.stack[st.sp - 1].Boxed? && st.stack[st.sp - 1].value == Integer(b)
    ensures var r := Step(code, consts, owner, st, ip);
      var exact := if code[ip] == Add then a as int + b as int else if code[ip] == Sub then a as int - b as int else a as int * b as int;
      r.effect == Continue(ip + 1) && r.state.sp == st.sp - 1 && r.state.serial == st.serial + 1
      && StackTop(r.state) == Boxed(Integer(Wrap64(exact)), FreshRef(owner, st.serial))
  {
  }

  /** `/` on two integers truncates toward zero; a zero divisor and
      `long.MinValue / -1` throw. */
  lemma IntegerDivision(code: seq<byte>, consts: seq<Obj>, owner: object, st: VmState, ip: nat, a: int64, b: int64)
    requires WellFormed(st) && ip < |code| && code[ip] == Div && 2 <= st.sp
    requires st.stack[st.sp - 2].Boxed? && st.stack[st.sp - 2].value == Integer(a)
    requires st.stack[st.sp - 1].Boxed? && st.stack[st.sp - 1].value == Integer(b)
    ensures var r := Step(code, consts, owner, st, ip);
      (b == 0 ==> r.effect == Raise(DivideByZero))
      && (a == MinInt64 && b == -1 ==> r.effect == Raise(Overflow))
      && (b != 0 && !(a == MinInt64 && b == -1) ==>
            r.effect == Continue(ip + 1) && r.state.sp == st.sp - 1
            && StackTop(r.state) == Boxed(Integer(TruncatedDiv(a, b)), FreshRef(owner, st.serial)))
  {
  }

  /** Two strings support only `+`, which pushes their concatenation as a
      new string; the other arithmetic opcodes are an error. */
  lemma StringOperations(code: seq<byte>, consts: seq<Obj>, owner: object, st: VmState, ip: nat, x: string, y: string)
    requires WellFormed(st) && ip < |code| && (code[ip] == Add || code[ip] == Sub || code[ip] == Mul || code[ip] == Div)
    requires 2 <= st.sp
    requires st.stack[st.sp - 2].Boxed? && st.stack[st.sp - 2].value == String(x)
    requires st.stack[st.sp - 1].Boxed? && st.stack[st.sp - 1].value == String(y)
    ensures var r := Step(code, consts, owner, st, ip);
      (code[ip] == Add ==>
         r.effect == Continue(ip + 1) && StackTop(r.state) == Boxed(String(x + y), FreshRef(owner, st.serial)))
      && (code[ip] != Add ==> r.effect == Halt("ERROR: unknown string operator: " + OpcodeName(code[ip])))
  {
  }

  /** Operands that are neither two integers nor two strings make an
      arithmetic opcode an error that names both types. */
  lemma MixedOperands(code: seq<byte>, consts: seq<Obj>, owner: object, st: VmState, ip: nat)
    requires WellFormed(st) && ip < |code| && (code[ip] == Add || code[ip] == Sub || code[ip] == Mul || code[ip] == Div)
    requires 2 <= st.sp && st.stack[st.sp - 2].Boxed? && st.stack[st.sp - 1].Boxed?
    requires !(IsInteger(st.stack[st.sp - 2]) && IsInteger(st.stack[st.sp - 1]))
    requires !(IsString(st.stack[st.sp - 2]) && IsString(st.stack[st.sp - 1]))
    ensures Step(code, consts, owner, st, ip).effect
         == Halt("ERROR: Unsupported types for binary operation: "
                 + ClassName(st.stack[st.sp - 2].value) + " " + ClassName(st.stack[st.sp - 1].value))
  {
  }

  /** `-` negates an integer, with wrap-around; any other object is an error
      that names its type. */
  lemma Negation(code: seq<byte>, consts: seq<Obj>, owner: object, st: VmState, ip: nat)
    requires WellFormed(st) && ip < |code| && code[ip] == Minus && 1 <= st.sp && st.stack[st.sp - 1].Boxed?
    ensures var r := Step(code, consts, owner, st, ip);
      var operand := st.stack[st.sp - 1].value;
      (operand.Integer? ==>
         r.effect == Continue(ip + 1) && r.state.sp == st.sp
         && StackTop(r.state) == Boxed(Integer(Wrap64(-(operand.intValue as int))), FreshRef(owner, st.serial)))
      && (!operand.Integer? ==> r.effect == Halt("ERROR: unsupported type for negation: " + ClassName(operand)))
  {
  }

  /** Integers compare by value, with `>` as well as `==` and `!=`; for any
      other operands `>` is an error. */
  lemma IntegerComparison(code: seq<byte>, consts: seq<Obj>, owner: object, st: VmState, ip: nat, a: int64, b: int64)
    requires WellFormed(st) && ip < |code| && (code[ip] == Equal || code[ip] == NotEqual || code[ip] == GreaterThan)
    requires 2 <= st.sp
    requires st.stack[st.sp - 2].Boxed? && st.stack[st.sp - 2].value == Integer(a)
    requires st.stack[st.sp - 1].Boxed? && st.stack[st.sp - 1].value == Integer(b)
    ensures var r := Step(code, consts, owner, st, ip);
      r.effect == Continue(ip + 1) && r.state.sp == st.sp - 1 && r.state.serial == st.serial
      && StackTop(r.state) == NativeBool(if code[ip] == Equal then a == b else if code[ip] == NotEqual then a != b else a > b)
  {
  }

  /** `Array n` replaces the top n objects with one new array holding them,
      bottom first. */
  lemma ArrayCollects(code: seq<byte>, consts: seq<Obj>, owner: object, st: VmState, ip: nat, n: nat)
    requires WellFormed(st) && ip + 2 < |code| && code[ip] == Code.Array
    requires n == code[ip + 1] as int * 256 + code[ip + 2] as int && n <= st.sp && st.sp - n < StackSize
    requires forall i | st.sp - n <= i < st.sp :: st.stack[i].Boxed?
    ensures var r := Step(code, consts, owner, st, ip);
      var elements := Values(st.stack[st.sp - n..st.sp]);
      elements.Some? && r.effect == Continue(ip + 3) && r.state.sp == st.sp - n + 1
      && StackTop(r.state) == Boxed(Array(elements.value), FreshRef(owner, st.serial))
      && |elements.value| == n
      && forall i | 0 <= i < n :: elements.value[i] == st.stack[st.sp - n + i].value
  {
    var slots := st.stack[st.sp - n..st.sp];
    assert forall i | 0 <= i < |slots| :: slots[i] == st.stack[st.sp - n + i];
  }

  /** `Hash n` whose first key cannot be hashed is an error that names the
      key's type, before anything on the stack changes. */
  lemma HashRejectsKey(code: seq<byte>, consts: seq<Obj>, owner: object, st: VmState, ip: nat, n: nat)
    requires WellFormed(st) && ip + 2 < |code| && code[ip] == Code.Hash
    requires n == code[ip + 1] as int * 256 + code[ip + 2] as int && 2 <= n <= st.sp
    requires st.stack[st.sp - n].Boxed? && KeyOf(st.stack[st.sp - n].value).None?
    ensures var r := Step(code, consts, owner, st, ip);
      r.effect == Halt("ERROR: unusable as hash key " + ClassName(st.stack[st.sp - n].value)) && r.state == st
  {
  }

  /** Two arrays under the same key: the build throws exactly when they are
      different objects and not both empty; otherwise the first one stays. */
  lemma DuplicateArrayValues(stack: seq<Slot>, i: nat, key: Slot, first: Slot, second: Slot)
    requires |stack| == StackSize && i + 4 < StackSize
    requires key.Boxed? && KeyOf(key.value).Some? && stack[i] == key && stack[i + 2] == key
    requires first.Boxed? && first.value.Array? && second.Boxed? && second.value.Array?
    requires stack[i + 1] == first && stack[i + 3] == second
    ensures var r := BuildHashFrom(stack, i, i + 4, map[], map[]);
      (r == HashThrew(DuplicateKey) <==> first.ref != second.ref && (first.value.elements != [] || second.value.elements != []))
      && (r != HashThrew(DuplicateKey) ==> r == HashBuilt(map[KeyOf(key.value).value := first.value]))
  {
    var k := KeyOf(key.value).value;
    assert BuildHashFrom(stack, i, i + 4, map[], map[])
        == BuildHashFrom(stack, i + 2, i + 4, map[k := first.value], map[k := first.ref]);
  }

  /** `SetGlobal i` then `GetGlobal i` puts the same object back on top of
      the stack. */
  lemma GlobalRoundTrip(code: seq<byte>, consts: seq<Obj>, owner: object, st: VmState, ip: nat)
    requires WellFormed(st) && 1 <= st.sp && ip + 5 < |code|
    requires code[ip] == SetGlobal && code[ip + 3] == GetGlobal
    requires code[ip + 1] == code[ip + 4] && code[ip + 2] == code[ip + 5]
    requires code[ip + 1] as int * 256 + code[ip + 2] as int < |st.globals|
    ensures var first := Step(code, consts, owner, st, ip);
      first.effect == Continue(ip + 3)
      && var second := Step(code, consts, owner, first.state, ip + 3);
      second.effect == Continue(ip + 6) && second.state.sp == st.sp
      && StackTop(second.state) == StackTop(st)
  {
    var first := Step(code, consts, owner, st, ip);
    assert Operand(code, ip + 3) == Operand(code, ip);
    assert first.state.globals[code[ip + 1] as int * 256 + code[ip + 2] as int] == StackTop(st);
  }

  /** A run that ends within some number of steps ends the same way, in the
      same state, with any larger budget. */
  lemma {:induction false} MoreFuelSameRun(code: seq<byte>, consts: seq<Obj>, owner: object, st: VmState, ip: nat, fuel: nat, more: nat)
    requires WellFormed(st) && fuel <= more
    requires Exec(code, consts, owner, st, ip, fuel).result != OutOfFuel
    ensures Exec(code, consts, owner, st, ip, more) == Exec(code, consts, owner, st, ip, fuel)
    decreases fuel
  {
    if ip < |code| && fuel > 0 {
      var s := Step(code, consts, owner, st, ip);
      if s.effect.Continue? {
        MoreFuelSameRun(code, consts, owner, s.state, s.effect.ip, fuel - 1, more - 1);
      }
    }
  }

  /** The bytecode of `1 + 2;` leaves 3, a newly allocated integer, as the
      last popped element, and the stack as it found it. */
  lemma OnePlusTwoRuns(owner: object, st: VmState)
    requires WellFormed(st) && st.sp + 2 <= StackSize
    ensures var code := [Constant, 0, 0, Constant, 0, 1, Add, Pop];
      var r := Exec(code, [Integer(1), Integer(2)], owner, st, 0, 4);
      r.result == Finished(None) && r.state.sp == st.sp && r.state.serial == st.serial + 1
      && LastPopped(r.state) == Success(Boxed(Integer(3), FreshRef(owner, st.serial)))
  {
    var code: seq<byte> := [Constant, 0, 0, Constant, 0, 1, Add, Pop];
    var consts := [Integer(1), Integer(2)];
    var one := Boxed(Integer(1), ConstantRef(owner, 0));
    var two := Boxed(Integer(2), ConstantRef(owner, 1));
    var three := Boxed(Integer(3), FreshRef(owner, st.serial));
    assert Operand(code, 0) == Success(0);
    var st1 := st.(stack := st.stack[st.sp := one], sp := st.sp + 1);
    assert Step(code, consts, owner, st, 0) == StepResult(Continue(3), st1);
    assert Operand(code, 3) == Success(1);
    var st2 := st1.(stack := st1.stack[st1.sp := two], sp := st1.sp + 1);
    assert Step(code, consts, owner, st1, 3) == StepResult(Continue(6), st2);
    assert Wrap64(1 + 2) == 3;
    var st3 := st2.(sp := st.sp, serial := st.serial + 1).(stack := st2.stack[st.sp := three], sp := st.sp + 1);
    assert IntegerBinaryStep(Add, 1, 2, owner, st2.(sp := st.sp), 7) == StepResult(Continue(7), st3);
    assert Step(code, consts, owner, st2, 6) == StepResult(Continue(7), st3);
    var st4 := st3.(sp := st.sp);
    assert Step(code, consts, owner, st3, 7) == StepResult(Continue(8), st4);
    assert Exec(code, consts, owner, st4, 8, 0) == Run(Finished(None), st4);
    assert Exec(code, consts, owner, st3, 7, 1) == Run(Finished(None), st4);
    assert Exec(code, consts, owner, st2, 6, 2) == Run(Finished(None), st4);
    assert Exec(code, consts, owner, st1, 3, 3) == Run(Finished(None), st4);
    assert st4.stack[st.sp] == three;
  }
}
