/** An activation record: the closure being run, the stack index its locals
    start at, and an instruction pointer that starts before the first
    instruction. The closure type is not part of this model, so the frame is
    generic in it. */
module Frames {
  import opened Runtime

  /** `class Frame`: the closure and the base pointer are fixed at
      construction; only the instruction pointer can be set. */
  class Frame<Closure> {
    const closure: Closure
    const basePointer: int32
    var instructionPointer: int32

    constructor (closure: Closure, basePointer: int32)
      ensures this.closure == closure && this.basePointer == basePointer
      ensures instructionPointer == -1
    {
      this.closure := closure;
      this.basePointer := basePointer;
      instructionPointer := -1;
    }

    /** The `InstructionPointer` setter: the closure and the base pointer
        are constants, so nothing else of the frame can change. */
    method SetInstructionPointer(value: int32)
      modifies this
      ensures instructionPointer == value
    {
      instructionPointer := value;
    }
  }
}
