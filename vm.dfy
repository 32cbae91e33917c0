/** The virtual machine: a 2048-slot operand stack, a globals array that
    several machines may share, and the dispatch loop over the bytecode.
    Every method is proved to do what the `Execution` module says. */
module Machine {
  import opened Wrappers
  import opened Runtime
  import opened Objects
  import opened Code
  import opened Execution
  import Compiler

  /** `CreateGlobalsArray`: 2048 null slots. */
  method CreateGlobalsArray() returns (globals: array<Slot>)
    ensures fresh(globals) && globals.Length == GlobalsSize
    ensures forall i | 0 <= i < globals.Length :: globals[i] == Empty
  {
    globals := new Slot[GlobalsSize](_ => Empty);
  }

  /** `NewWithGlobalStore`: a machine over the given globals, so that a
      session can keep its global bindings from one program to the next. */
  method NewWithGlobalStore(byteCode: Compiler.ByteCode, globals: array<Slot>) returns (vm: Vm)
    ensures fresh(vm) && fresh(vm.stack) && vm.Valid() && vm.globals == globals
    ensures vm.instructions == byteCode.instructions && vm.constants == byteCode.constants
    ensures vm.State() == VmState(seq(StackSize, _ => Empty), 0, globals[..], 0)
  {
    vm := new Vm.WithGlobals(byteCode, globals);
  }

  class Vm {
    const instructions: seq<byte>
    const constants: seq<Obj>
    const stack: array<Slot>
    const globals: array<Slot>
    var stackPointer: int
    /** How many objects this machine has allocated: the identity of the next one. */
    var serial: nat

    predicate Valid()
      reads this
    {
      stack.Length == StackSize && 0 <= stackPointer <= StackSize && stack != globals
    }

    ghost function State(): VmState
      reads this, stack, globals
    {
      VmState(stack[..], stackPointer, globals[..], serial)
    }

    /** The private constructor: the instructions are copied, the constant
        pool is the compiler's, the stack is new and empty. */
    constructor WithGlobals(byteCode: Compiler.ByteCode, globals: array<Slot>)
      ensures fresh(stack) && Valid() && this.globals == globals
      ensures instructions == byteCode.instructions && constants == byteCode.constants
      ensures State() == VmState(seq(StackSize, _ => Empty), 0, globals[..], 0)
    {
      instructions := byteCode.instructions;
      constants := byteCode.constants;
      stack := new Slot[StackSize](_ => Empty);
      this.globals := globals;
      stackPointer := 0;
      serial := 0;
    }

    /** The public constructor: a machine with globals of its own. */
    constructor (byteCode: Compiler.ByteCode)
      ensures fresh(stack) && fresh(globals) && Valid()
      ensures instructions == byteCode.instructions && constants == byteCode.constants
      ensures State() == VmState(seq(StackSize, _ => Empty), 0, seq(GlobalsSize, _ => Empty), 0)
    {
      instructions := byteCode.instructions;
      constants := byteCode.constants;
      stack := new Slot[StackSize](_ => Empty);
      globals := new Slot[GlobalsSize](_ => Empty);
      stackPointer := 0;
      serial := 0;
    }

    /** `GetStackTop`. */
    function GetStackTop(): (top: Slot)
      reads this, stack
      requires Valid()
      ensures top == StackTop(State())
    {
      if stackPointer < 1 then Empty else stack[stackPointer - 1]
    }

    /** `GetLastPoppedStackElement`; throws when the stack is full. */
    function GetLastPoppedStackElement(): (r: Result<Slot, Exception>)
      reads this, stack
      requires Valid()
      ensures r == LastPopped(State())
    {
      if stackPointer < StackSize then Success(stack[stackPointer]) else Failure(IndexOutOfRange)
    }

    method Push(slot: Slot, next: nat) returns (e: Effect)
      requires Valid()
      modifies this, stack
      ensures Valid() && StepResult(e, State()) == PushStep(old(State()), slot, next)
    {
      if stackPointer >= StackSize {
        return Halt("ERROR: stack overflow");
      }
      stack[stackPointer] := slot;
      stackPointer := stackPointer + 1;
      e := Continue(next);
    }

    /** Allocates a new object with the next identity and pushes it. */
    method PushNew(value: Obj, next: nat) returns (e: Effect)
      requires Valid()
      modifies this, stack
      ensures Valid() && StepResult(e, State()) == PushFresh(this, old(State()), value, next)
    {
      var slot := Boxed(value, FreshRef(this, serial));
      serial := serial + 1;
      e := Push(slot, next);
    }

    /** `Pop`; below the bottom of the stack the read throws. */
    method Pop() returns (r: Result<Slot, Exception>)
      requires Valid()
      modifies this
      ensures Valid() && serial == old(serial)
      ensures old(stackPointer) < 1 ==> r == Failure(IndexOutOfRange) && stackPointer == old(stackPointer)
      ensures old(stackPointer) >= 1 ==>
        r == Success(stack[old(stackPointer) - 1]) && stackPointer == old(stackPointer) - 1
    {
      if stackPointer < 1 {
        return Failure(IndexOutOfRange);
      }
      r := Success(stack[stackPointer - 1]);
      stackPointer := stackPointer - 1;
    }

    method ExecuteBinaryOperation(op: Opcode, next: nat) returns (e: Effect)
      requires Valid()
      modifies this, stack
      ensures Valid() && StepResult(e, State()) == BinaryStep(op, this, old(State()), next)
    {
      var right := Pop();
      if right.Failure? {
        return Raise(right.error);
      }
      var left := Pop();
      if left.Failure? {
        return Raise(left.error);
      }
      var l, r := left.value, right.value;
      if IsInteger(l) && IsInteger(r) {
        e := ExecuteBinaryIntegerOperation(op, l.value.intValue, r.value.intValue, next);
      } else if IsString(l) && IsString(r) {
        e := ExecuteBinaryStringOperation(op, l.value.chars, r.value.chars, next);
      } else if l.Empty? || r.Empty? {
        e := Raise(NullReference);
      } else {
        e := Halt("ERROR: Unsupported types for binary operation: " + ClassName(l.value) + " " + ClassName(r.value));
      }
    }

    method ExecuteBinaryIntegerOperation(op: Opcode, a: int64, b: int64, next: nat) returns (e: Effect)
      requires Valid()
      modifies this, stack
      ensures Valid() && StepResult(e, State()) == IntegerBinaryStep(op, a, b, this, old(State()), next)
    {
      var result: int64;
      if op == Add {
        result := Wrap64(a as int + b as int);
      } else if op == Sub {
        result := Wrap64(a as int - b as int);
      } else if op == Mul {
        result := Wrap64(a as int * b as int);
      } else if op == Div {
        var q := Div64(a, b);
        if q.Failure? {
          return Raise(q.error);
        }
        result := q.value;
      } else {
        return Halt("ERROR: unknown integer operator: " + OpcodeName(op));
      }
      e := PushNew(Integer(result), next);
    }

    method ExecuteBinaryStringOperation(op: Opcode, a: string, b: string, next: nat) returns (e: Effect)
      requires Valid()
      modifies this, stack
      ensures Valid() && StepResult(e, State()) == StringBinaryStep(op, a, b, this, old(State()), next)
    {
      if op != Add {
        return Halt("ERROR: unknown string operator: " + OpcodeName(op));
      }
      e := PushNew(String(a + b), next);
    }

    method ExecuteComparison(op: Opcode, next: nat) returns (e: Effect)
      requires Valid()
      modifies this, stack
      ensures Valid() && StepResult(e, State()) == ComparisonStep(op, old(State()), next)
    {
      var right := Pop();
      if right.Failure? {
        return Raise(right.error);
      }
      var left := Pop();
      if left.Failure? {
        return Raise(left.error);
      }
      var l, r := left.value, right.value;
      if IsInteger(l) && IsInteger(r) {
        e := ExecuteIntegerComparison(op, l.value.intValue, r.value.intValue, next);
      } else if op == Equal {
        e := Push(NativeBool(SameReference(l, r)), next);
      } else if op == NotEqual {
        e := Push(NativeBool(!SameReference(l, r)), next);
      } else if l.Empty? || r.Empty? {
        e := Raise(NullReference);
      } else {
        e := Halt("ERROR: unknown operator: " + OpcodeName(op) + " (" + ClassName(l.value) + " " + ClassName(r.value) + ")");
      }
    }

    method ExecuteIntegerComparison(op: Opcode, a: int64, b: int64, next: nat) returns (e: Effect)
      requires Valid()
      modifies this, stack
      ensures Valid() && serial == old(serial)
      ensures op == Equal ==> StepResult(e, State()) == PushStep(old(State()), NativeBool(a == b), next)
      ensures op == NotEqual ==> StepResult(e, State()) == PushStep(old(State()), NativeBool(a != b), next)
      ensures op == GreaterThan ==> StepResult(e, State()) == PushStep(old(State()), NativeBool(a > b), next)
      ensures op != Equal && op != NotEqual && op != GreaterThan ==>
        e == Halt("ERROR: unknown operator: " + OpcodeName(op)) && State() == old(State())
    {
      if op == Equal {
        e := Push(NativeBool(a == b), next);
      } else if op == NotEqual {
        e := Push(NativeBool(a != b), next);
      } else if op == GreaterThan {
        e := Push(NativeBool(a > b), next);
      } else {
        e := Halt("ERROR: unknown operator: " + OpcodeName(op));
      }
    }

    method ExecuteMinusOperator(next: nat) returns (e: Effect)
      requires Valid()
      modifies this, stack
      ensures Valid() && StepResult(e, State()) == MinusStep(this, old(State()), next)
    {
      var operand := Pop();
      if operand.Failure? {
        return Raise(operand.error);
      }
      var o := operand.value;
      if IsInteger(o) {
        e := PushNew(Integer(Wrap64(-(o.value.intValue as int))), next);
      } else if o.Empty? {
        e := Raise(NullReference);
      } else {
        e := Halt("ERROR: unsupported type for negation: " + ClassName(o.value));
      }
    }

    method ExecuteBangOperator(next: nat) returns (e: Effect)
      requires Valid()
      modifies this, stack
      ensures Valid() && StepResult(e, State()) == BangStep(old(State()), next)
    {
      var operand := Pop();
      if operand.Failure? {
        return Raise(operand.error);
      }
      e := Push(NativeBool(BangOf(operand.value)), next);
    }

    /** `BuildArray`: the slots from `startIndex` up to `endIndex`, or None
        when one of them is a null reference. */
    method BuildArray(startIndex: int, endIndex: int) returns (r: Result<Option<seq<Obj>>, Exception>)
      requires Valid() && startIndex <= endIndex <= StackSize
      ensures startIndex < 0 ==> r == Failure(IndexOutOfRange)
      ensures 0 <= startIndex ==> r == Success(Values(stack[startIndex..endIndex]))
    {
      if startIndex < 0 {
        return Failure(IndexOutOfRange);
      }
      var elements: seq<Obj> := [];
      var i := startIndex;
      while i < endIndex
        invariant startIndex <= i <= endIndex
        invariant Values(stack[startIndex..i]) == Some(elements)
      {
        var slot := stack[i];
        if slot.Empty? {
          assert stack[startIndex..endIndex][i - startIndex] == slot;
          return Success(None);
        }
        assert stack[startIndex..i + 1] == stack[startIndex..i] + [slot];
        ValuesAppend(stack[startIndex..i], slot);
        elements := elements + [slot.value];
        i := i + 1;
      }
      r := Success(Some(elements));
    }

    /** `BuildHash`: the pairs from `startIndex` up to `endIndex`, or why
        they make no hash. */
    method BuildHash(startIndex: int, endIndex: int) returns (r: HashBuild)
      requires Valid() && endIndex <= StackSize
      ensures r == BuildHashFrom(stack[..], startIndex, endIndex, map[], map[])
    {
      var pairs: map<HashKey, Obj> := map[];
      var refs: map<HashKey, Ref> := map[];
      var i := startIndex;
      while i < endIndex
        invariant refs.Keys == pairs.Keys
        invariant BuildHashFrom(stack[..], i, endIndex, pairs, refs) == BuildHashFrom(stack[..], startIndex, endIndex, map[], map[])
        decreases endIndex - i
      {
        if i < 0 || i + 1 >= StackSize {
          return HashThrew(IndexOutOfRange);
        }
        var key := stack[i];
        var value := stack[i + 1];
        if key.Empty? {
          return HashThrew(NullReference);
        }
        var k := KeyOf(key.value);
        if k.None? {
          return HashRejected("ERROR: unusable as hash key " + ClassName(key.value));
        }
        if value.Empty? {
          return HashOutside;
        }
        if k.value !in pairs {
          pairs := pairs[k.value := value.value];
          refs := refs[k.value := value.ref];
        } else if !RecordEquals(pairs[k.value], refs[k.value], value.value, value.ref) {
          return HashThrew(DuplicateKey);
        }
        i := i + 2;
      }
      r := HashBuilt(pairs);
    }

    /** Reads the two-byte operand after the opcode at `ip`. */
    method ReadOperand(ip: nat) returns (r: Result<nat, Exception>)
      requires ip < |instructions|
      ensures r == Operand(instructions, ip)
    {
      if ip + 2 < |instructions| {
        r := Success(instructions[ip + 1] as int * 256 + instructions[ip + 2] as int);
      } else {
        r := Failure(ArgumentOutOfRange);
      }
    }

    /** One round of `Run`'s loop: the instruction at `ip`. */
    method ExecuteAt(ip: nat) returns (e: Effect)
      requires Valid() && ip < |instructions|
      modifies this, stack, globals
      ensures Valid() && StepResult(e, State()) == Step(instructions, constants, this, old(State()), ip)
    {
      var op := instructions[ip];
      if op == Constant {
        var index := ReadOperand(ip);
        if index.Failure? {
          return Raise(index.error);
        }
        if index.value >= |constants| {
          return Raise(ArgumentOutOfRange);
        }
        e := Push(Boxed(constants[index.value], ConstantRef(this, index.value)), ip + 3);
      } else if op == Code.Pop {
        var popped := Pop();
        e := if popped.Failure? then Raise(popped.error) else Continue(ip + 1);
      } else if op == Add || op == Sub || op == Mul || op == Div {
        e := ExecuteBinaryOperation(op, ip + 1);
      } else if op == True {
        e := Push(TrueSlot, ip + 1);
      } else if op == False {
        e := Push(FalseSlot, ip + 1);
      } else if op == Equal || op == NotEqual || op == GreaterThan {
        e := ExecuteComparison(op, ip + 1);
      } else if op == Minus {
        e := ExecuteMinusOperator(ip + 1);
      } else if op == Bang {
        e := ExecuteBangOperator(ip + 1);
      } else if op == JumpNotTruthy {
        var pos := ReadOperand(ip);
        if pos.Failure? {
          return Raise(pos.error);
        }
        var condition := Pop();
        if condition.Failure? {
          return Raise(condition.error);
        }
        e := Continue(if IsTruthy(condition.value) then ip + 3 else pos.value);
      } else if op == Jump {
        var pos := ReadOperand(ip);
        e := if pos.Failure? then Raise(pos.error) else Continue(pos.value);
      } else if op == Code.Null {
        e := Push(NullSlot, ip + 1);
      } else if op == SetGlobal {
        e := ExecuteSetGlobal(ip);
      } else if op == GetGlobal {
        var index := ReadOperand(ip);
        if index.Failure? {
          return Raise(index.error);
        }
        if index.value >= globals.Length {
          return Raise(IndexOutOfRange);
        }
        e := Push(globals[index.value], ip + 3);
      } else if op == Code.Array {
        e := ExecuteArray(ip);
      } else if op == Code.Hash {
        e := ExecuteHash(ip);
      } else {
        e := Continue(ip + 1);
      }
    }

    /** `SetGlobal`: the pop happens before the store's bounds check. */
    method ExecuteSetGlobal(ip: nat) returns (e: Effect)
      requires Valid() && ip < |instructions| && instructions[ip] == SetGlobal
      modifies this, globals
      ensures Valid() && StepResult(e, State()) == Step(instructions, constants, this, old(State()), ip)
    {
      var index := ReadOperand(ip);
      if index.Failure? {
        return Raise(index.error);
      }
      var value := Pop();
      if value.Failure? {
        return Raise(value.error);
      }
      if index.value >= globals.Length {
        return Raise(IndexOutOfRange);
      }
      globals[index.value] := value.value;
      e := Continue(ip + 3);
    }

    method ExecuteArray(ip: nat) returns (e: Effect)
      requires Valid() && ip < |instructions| && instructions[ip] == Code.Array
      modifies this, stack
      ensures Valid() && StepResult(e, State()) == Step(instructions, constants, this, old(State()), ip)
    {
      var n := ReadOperand(ip);
      if n.Failure? {
        return Raise(n.error);
      }
      var elements := BuildArray(stackPointer - n.value, stackPointer);
      if elements.Failure? {
        return Raise(elements.error);
      }
      if elements.value.None? {
        return Outside;
      }
      stackPointer := stackPointer - n.value;
      e := PushNew(Obj.Array(elements.value.value), ip + 3);
    }

    method ExecuteHash(ip: nat) returns (e: Effect)
      requires Valid() && ip < |instructions| && instructions[ip] == Code.Hash
      modifies this, stack
      ensures Valid() && StepResult(e, State()) == Step(instructions, constants, this, old(State()), ip)
    {
      var n := ReadOperand(ip);
      if n.Failure? {
        return Raise(n.error);
      }
      var built := BuildHash(stackPointer - n.value, stackPointer);
      match built
      case HashRejected(error) => e := Halt(error);
      case HashThrew(x) => e := Raise(x);
      case HashOutside => e := Outside;
      case HashBuilt(pairs) =>
        stackPointer := stackPointer - n.value;
        e := PushNew(Obj.Hash(pairs), ip + 3);
    }

    /** `Run`, for at most `fuel` instructions: the loop follows `Exec`
        step by step, and ends in the state `Exec` ends in. */
    method Run(fuel: nat) returns (r: RunResult)
      requires Valid()
      modifies this, stack, globals
      ensures Valid() && Execution.Run(r, State()) == Exec(instructions, constants, this, old(State()), 0, fuel)
    {
      var ip: nat := 0;
      var remaining := fuel;
      while ip < |instructions|
        invariant Valid()
        invariant Exec(instructions, constants, this, State(), ip, remaining)
               == Exec(instructions, constants, this, old(State()), 0, fuel)
        decreases remaining
      {
        if remaining == 0 {
          return OutOfFuel;
        }
        var e := ExecuteAt(ip);
        match e
        case Continue(next) =>
          ip := next;
          remaining := remaining - 1;
        case Halt(error) => return Finished(Some(error));
        case Raise(x) => return Threw(x);
        case Outside => return Unmodelled;
      }
      r := Finished(None);
    }
  }
}
