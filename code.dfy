/** The bytecode format: the opcode catalogue with each opcode's operand widths,
    the big-endian operand encoder, the decoders and the text disassembler. */
module Code {
  import opened Wrappers
  import opened Runtime
  import Formatting

  type byte = b: int | 0 <= b < 256

  /** `enum Opcode : byte`: every byte converts to an Opcode (`AsOpcode` is a
      cast), but only the catalogue below has names and definitions. */
  type Opcode = byte

  const Constant: Opcode := 0
  const Pop: Opcode := 1
  const Add: Opcode := 2
  const Sub: Opcode := 3
  const Mul: Opcode := 4
  const Div: Opcode := 5
  const True: Opcode := 6
  const False: Opcode := 7
  const Equal: Opcode := 8
  const NotEqual: Opcode := 9
  const GreaterThan: Opcode := 10
  const Minus: Opcode := 11
  const Bang: Opcode := 12
  const JumpNotTruthy: Opcode := 13
  const Jump: Opcode := 14
  const Null: Opcode := 15
  const GetGlobal: Opcode := 16
  const SetGlobal: Opcode := 17
  const Array: Opcode := 18
  /** Read by the VM with a two-byte operand; appended after Array. */
  const Hash: Opcode := 19

  /** `AsByte` and `AsOpcode` are the identity on the byte: an Opcode is its byte. */
  function AsByte(op: Opcode): byte { op }
  function AsOpcode(b: byte): Opcode { b }

  /** The member name C#'s `Opcode.ToString()` prints: the enum member's name
      for a catalogue opcode, the number itself for any other byte. */
  function OpcodeName(op: Opcode): (s: string)
    ensures |s| > 0
  {
    if op < |Names| then Names[op] else Formatting.NatToString(op)
  }

  /** Distinct opcodes print differently: the catalogue names are distinct
      words, and a byte past the catalogue prints as digits, which no name
      starts with. */
  lemma OpcodeNameInjective(a: Opcode, b: Opcode)
    requires OpcodeName(a) == OpcodeName(b)
    ensures a == b
  {
    if a >= |Names| && b >= |Names| {
      Formatting.NatToStringInjective(a as nat, b as nat);
    }
  }

  const Names: seq<string> := [
    "Constant", "Pop", "Add", "Sub", "Mul", "Div", "True", "False", "Equal", "NotEqual",
    "GreaterThan", "Minus", "Bang", "JumpNotTruthy", "Jump", "Null", "GetGlobal", "SetGlobal",
    "Array", "Hash"]

  /** A catalogue entry. The C# record stores the name string; here the
      entry keeps its opcode and `Name` derives the same string from it. */
  datatype Definition = Definition(op: Opcode, operandWidths: seq<int>)

  /** The definition's name: "Op" followed by the enum member's name. */
  function Name(def: Definition): string {
    "Op" + OpcodeName(def.op)
  }

  /** The opcodes that carry one two-byte operand. */
  predicate HasOperand(op: Opcode) {
    op == Constant || op == JumpNotTruthy || op == Jump || op == GetGlobal
      || op == SetGlobal || op == Array || op == Hash
  }

  /** `Definition.Of`: the catalogue entry of an opcode, or None (C# null). */
  function Of(op: Opcode): (d: Option<Definition>)
    ensures d.Some? <==> op <= Hash
    ensures d.Some? ==> |d.value.operandWidths| <= 1
    ensures d.Some? ==> forall k | 0 <= k < |d.value.operandWidths| :: d.value.operandWidths[k] == 2
    ensures d.Some? ==> (|d.value.operandWidths| == 1 <==> HasOperand(op))
  {
    if op <= Hash then Some(Definition(op, if HasOperand(op) then [2] else [])) else None
  }

  // ---------------------------------------------------------------- encoding

  /** `BitConverter.GetBytes(int)`: the four bytes of the 32-bit two's
      complement representation, least significant first. */
  function LittleEndianBytes(value: int32): (r: seq<byte>)
    ensures |r| == 4
  {
    var u := value % 0x1_0000_0000;
    [ByteAt(u, 0), ByteAt(u, 1), ByteAt(u, 2), ByteAt(u, 3)]
  }

  /** Byte `k` (counting from the least significant) of a natural number. */
  function ByteAt(u: nat, k: nat): byte
    decreases k
  {
    if k == 0 then u % 256 else ByteAt(u / 256, k - 1)
  }

  function Reverse<T>(s: seq<T>): (r: seq<T>)
    ensures |r| == |s|
  {
    if s == [] then [] else Reverse(s[1..]) + [s[0]]
  }

  /** LINQ's `Take(n)`: at most the first n elements. */
  function Take<T>(s: seq<T>, n: int): (r: seq<T>)
    ensures |r| == if n <= 0 then 0 else if n >= |s| then |s| else n
  {
    if n <= 0 then [] else if n >= |s| then s else s[..n]
  }

  /** `ToBigEndian(value, width)` on a little-endian host: the low `width`
      bytes (at most four) of the value, most significant first. */
  function ToBigEndian(value: int32, width: int): (r: seq<byte>)
    ensures |r| == if width <= 0 then 0 else if width >= 4 then 4 else width
  {
    Reverse(Take(LittleEndianBytes(value), width))
  }

  /** The concatenation of `ToBigEndian(operand, width)` over the pairs of
      LINQ's `Zip`, which stops at the shorter of the two lists. */
  function EncodeOperands(operands: seq<int32>, widths: seq<int>): (r: seq<byte>)
    decreases |operands|
  {
    if operands == [] || widths == [] then []
    else ToBigEndian(operands[0], widths[0]) + EncodeOperands(operands[1..], widths[1..])
  }

  /** `Instruction.Make`: the opcode byte followed by the encoded operands, or
      nothing at all for a byte with no definition. */
  function Make(op: Opcode, operands: seq<int32>): (r: seq<byte>)
    ensures Of(op).None? ==> r == []
    ensures Of(op).Some? ==> 1 <= |r| && r[0] == op
    ensures Of(op).Some? ==> r[1..] == EncodeOperands(operands, Of(op).value.operandWidths)
  {
    match Of(op)
    case None => []
    case Some(def) => [AsByte(op)] + EncodeOperands(operands, def.operandWidths)
  }

  // ---------------------------------------------------------------- decoding

  /** `ReadUint16`: the first two bytes as a big-endian unsigned 16-bit number.
      Fewer than two bytes make the segment indexer throw; callers check. */
  function ReadUint16(ins: seq<byte>): (r: int)
    requires |ins| >= 2
    ensures 0 <= r < 0x1_0000
  {
    ins[0] as int * 256 + ins[1] as int
  }

  /** ReadUint16 reads the first byte as the high byte and the second as the low byte. */
  lemma ReadUint16BigEndian(ins: seq<byte>)
    requires |ins| >= 2
    ensures ReadUint16(ins) / 256 == ins[0] && ReadUint16(ins) % 256 == ins[1]
  {
  }

  /** The two-byte encoding and ReadUint16 are inverse on 0..65535, and the
      encoding keeps only the low sixteen bits of any other operand. */
  lemma ReadUint16OfToBigEndian(value: int32, rest: seq<byte>)
    ensures |ToBigEndian(value, 2)| == 2
    ensures ReadUint16(ToBigEndian(value, 2) + rest) == value % 0x1_0000
    ensures 0 <= value < 0x1_0000 ==> ReadUint16(ToBigEndian(value, 2) + rest) == value
  {
    var u := value % 0x1_0000_0000;
    var le := LittleEndianBytes(value);
    var be := ToBigEndian(value, 2);
    assert be == [le[1], le[0]] by {
      assert Take(le, 2) == [le[0], le[1]];
      assert Reverse([le[0], le[1]]) == Reverse([le[1]]) + [le[0]];
    }
    assert le[0] == u % 256 && le[1] == (u / 256) % 256 by {
      assert ByteAt(u, 1) == ByteAt(u / 256, 0);
    }
    assert (be + rest)[..2] == be;
    LowSixteenBits(u);
    CongruentModulo(value);
    SmallModulo(value);
  }

  lemma SmallModulo(v: int)
    ensures 0 <= v < 0x1_0000 ==> v % 0x1_0000 == v
  {
  }

  lemma LowSixteenBits(u: int)
    requires 0 <= u
    ensures ((u / 256) % 256) * 256 + u % 256 == u % 0x1_0000
  {
  }

  lemma CongruentModulo(v: int)
    ensures (v % 0x1_0000_0000) % 0x1_0000 == v % 0x1_0000
  {
  }

  /** `Definition.ReadOperands` as a function: reads one operand per width
      starting at `offset`; a width other than 2 throws NotImplemented, and an
      operand running past the end of the segment throws ArgumentOutOfRange. */
  function DecodeOperands(widths: seq<int>, ins: seq<byte>, offset: nat): (r: Result<(seq<int>, int), Exception>)
    ensures r.Success? ==> |r.value.0| == |widths| && r.value.1 == offset + 2 * |widths|
    decreases |widths|
  {
    if widths == [] then Success(([], offset))
    else if widths[0] != 2 then Failure(NotImplemented)
    else if offset + 2 > |ins| then Failure(ArgumentOutOfRange)
    else
      var tail :- DecodeOperands(widths[1..], ins, offset + 2);
      Success(([ReadUint16(ins[offset..])] + tail.0, tail.1))
  }

  /** `Definition.ReadOperands`: the loop that fills the operand array and
      advances `offset` by each width. Returns the operands and the number of
      bytes read. */
  method ReadOperands(def: Definition, ins: seq<byte>) returns (r: Result<(seq<int>, int), Exception>)
    ensures r == DecodeOperands(def.operandWidths, ins, 0)
  {
    var widths := def.operandWidths;
    var operands: seq<int> := [];
    var offset := 0;
    var i := 0;
    assert widths[0..] == widths;
    PrependNothing(DecodeOperands(widths, ins, 0));
    while i < |widths|
      invariant 0 <= i <= |widths| && |operands| == i && offset == 2 * i
      invariant DecodeOperands(widths, ins, 0)
             == Prepend(operands, DecodeOperands(widths[i..], ins, offset))
    {
      var width := widths[i];
      if width != 2 {
        return Failure(NotImplemented);
      }
      if offset + 2 > |ins| {
        return Failure(ArgumentOutOfRange);
      }
      PrependStep(operands, widths[i..], ins, offset);
      operands := operands + [ReadUint16(ins[offset..])];
      offset := offset + width;
      i := i + 1;
    }
    assert operands + [] == operands;
    return Success((operands, offset));
  }

  lemma PrependNothing(r: Result<(seq<int>, int), Exception>)
    ensures Prepend([], r) == r
  {
    if r.Success? { assert [] + r.value.0 == r.value.0; }
  }

  function Prepend(done: seq<int>, r: Result<(seq<int>, int), Exception>): Result<(seq<int>, int), Exception> {
    match r
    case Success((ops, n)) => Success((done + ops, n))
    case Failure(e) => Failure(e)
  }

  lemma PrependStep(done: seq<int>, widths: seq<int>, ins: seq<byte>, offset: nat)
    requires widths != [] && widths[0] == 2 && offset + 2 <= |ins|
    ensures Prepend(done, DecodeOperands(widths, ins, offset))
         == Prepend(done + [ReadUint16(ins[offset..])], DecodeOperands(widths[1..], ins, offset + 2))
  {
    var t := DecodeOperands(widths[1..], ins, offset + 2);
    if t.Success? {
      assert done + ([ReadUint16(ins[offset..])] + t.value.0) == (done + [ReadUint16(ins[offset..])]) + t.value.0;
    }
  }

  /** The sum of the operand widths of a definition: the bytes its operands take. */
  function WidthSum(widths: seq<int>): int {
    if widths == [] then 0 else widths[0] + WidthSum(widths[1..])
  }

  /** Operands that fit their two-byte width survive the encoding: decoding
      the encoded operands, wherever they sit in the stream, gives back the
      operands and advances the offset by the sum of the widths. */
  lemma {:induction false} DecodeEncodeOperands(operands: seq<int32>, widths: seq<int>, prefix: seq<byte>, rest: seq<byte>)
    requires |operands| == |widths|
    requires forall k | 0 <= k < |widths| :: widths[k] == 2
    requires forall k | 0 <= k < |operands| :: 0 <= operands[k] < 0x1_0000
    ensures DecodeOperands(widths, prefix + EncodeOperands(operands, widths) + rest, |prefix|)
         == Success((operands, |prefix| + WidthSum(widths)))
    decreases |widths|
  {
    if widths != [] {
      var off := |prefix|;
      var head := ToBigEndian(operands[0], 2);
      var tail := EncodeOperands(operands[1..], widths[1..]);
      var ins := prefix + EncodeOperands(operands, widths) + rest;
      assert EncodeOperands(operands, widths) == head + tail;
      SplitStream(prefix, head, tail, rest, ins);
      ReadUint16OfToBigEndian(operands[0], tail + rest);
      DecodeOneOperand(widths, ins, off);
      DecodeEncodeOperands(operands[1..], widths[1..], prefix + head, rest);
      assert [operands[0]] + operands[1..] == operands;
    }
  }

  /** The stream around one encoded operand, regrouped for the next step. */
  lemma SplitStream(prefix: seq<byte>, head: seq<byte>, tail: seq<byte>, rest: seq<byte>, ins: seq<byte>)
    requires ins == prefix + (head + tail) + rest
    ensures ins == (prefix + head) + tail + rest
    ensures ins[|prefix|..] == head + (tail + rest)
  {
  }

  lemma DecodeOneOperand(widths: seq<int>, ins: seq<byte>, offset: nat)
    requires widths != [] && widths[0] == 2 && offset + 2 <= |ins|
    ensures DecodeOperands(widths, ins, offset)
         == Prepend([ReadUint16(ins[offset..])], DecodeOperands(widths[1..], ins, offset + 2))
  {
  }

  /** The round trip of the bytecode format: for a catalogue opcode and one
      operand in 0..65535 per width, decoding the bytes after `Make`'s opcode
      byte returns the operands and the byte count 2 * |operands|. */
  lemma MakeReadOperandsRoundTrip(op: Opcode, operands: seq<int32>, rest: seq<byte>)
    requires Of(op).Some? && |operands| == |Of(op).value.operandWidths|
    requires forall k | 0 <= k < |operands| :: 0 <= operands[k] < 0x1_0000
    ensures |Make(op, operands)| == 1 + 2 * |operands|
    ensures DecodeOperands(Of(op).value.operandWidths, Make(op, operands)[1..] + rest, 0)
         == Success((operands, 2 * |operands|))
  {
    var widths := Of(op).value.operandWidths;
    assert |Make(op, operands)[1..]| == 2 * |operands| by {
      DecodeEncodeOperands(operands, widths, [], []);
      assert Make(op, operands)[1..] == [] + EncodeOperands(operands, widths) + [];
    }
    DecodeEncodeOperands(operands, widths, [], rest);
    assert Make(op, operands)[1..] + rest == [] + EncodeOperands(operands, widths) + rest;
    assert WidthSum(widths) == 2 * |widths| by {
      if widths != [] { assert widths[1..] == []; }
    }
  }

  // ------------------------------------------------------------ disassembly

  /** `FormatInstruction`: the opcode's name followed by its operand, if any.
      The text is an error line exactly when the operand count disagrees
      with the definition or exceeds one. */
  function FormatInstruction(def: Definition, operands: seq<int>): (r: string)
    ensures |def.operandWidths| == |operands| == 0 ==> r == Name(def)
    ensures |def.operandWidths| == |operands| == 1 ==> r == Name(def) + " " + Formatting.IntToString(operands[0])
    ensures (|r| >= 7 && r[..7] == "ERROR: ") <==> (|def.operandWidths| != |operands| || |operands| > 1)
  {
    var operandCount := |def.operandWidths|;
    if operandCount != |operands| then
      "ERROR: operand len " + Formatting.IntToString(|operands|) + " does not match defined "
        + Formatting.IntToString(operandCount) + "\n"
    else if operandCount == 0 then Name(def)
    else if operandCount == 1 then
      var line := Name(def) + " " + Formatting.IntToString(operands[0]);
      assert line[0] == Name(def)[0] == 'O';
      line
    else
      var line := "ERROR: unhandled operandCount for " + Name(def) + "\n";
      assert line[..7] == "ERROR: ";
      line
  }

  /** One `AppendLine` of the disassembly loop: a decoded instruction at its
      offset, or a byte with no definition. */
  datatype Line =
    | Instruction(offset: nat, def: Definition, operands: seq<int>)
    | Undefined(b: byte)

  /* An Undefined line is only appended for a byte past the catalogue, whose
     `ToString()` is its number (see DisassembleUndefined). */

  /** The text of a line, terminated by the newline `AppendLine` adds. */
  function RenderLine(line: Line): string {
    match line
    case Instruction(offset, def, operands) =>
      Formatting.D4(offset) + " " + FormatInstruction(def, operands) + "\n"
    case Undefined(b) => "ERRER: No definition of " + Formatting.NatToString(b) + " found\n"
  }

  function Render(lines: seq<Line>): string {
    if lines == [] then "" else Render(lines[..|lines| - 1]) + RenderLine(lines[|lines| - 1])
  }

  /** One round of the disassembly loop at offset `i`: the line it appends
      and the offset it moves on to. An undefined byte gets an error line and
      the scan moves on by one byte; a defined opcode moves on past its
      operands; operands cut off by the end of the stream make ReadOperands
      throw. */
  function DisassembleStep(ins: seq<byte>, i: nat): (r: Result<(Line, nat), Exception>)
    requires i < |ins|
    ensures r.Success? ==> r.value.1 > i
  {
    match Of(ins[i])
    case None => Success((Undefined(ins[i]), i + 1))
    case Some(def) =>
      var decoded :- DecodeOperands(def.operandWidths, ins[i + 1..], 0);
      Success((Instruction(i, def, decoded.0), i + 1 + decoded.1))
  }

  /** The lines the loop appends from offset `i` on. */
  function DisassembleFrom(ins: seq<byte>, i: nat): Result<seq<Line>, Exception>
    decreases |ins| - i
  {
    if i >= |ins| then Success([])
    else
      var step :- DisassembleStep(ins, i);
      PrependLine(step.0, DisassembleFrom(ins, step.1))
  }

  function PrependLine(line: Line, r: Result<seq<Line>, Exception>): Result<seq<Line>, Exception> {
    match r
    case Success(lines) => Success([line] + lines)
    case Failure(e) => Failure(e)
  }

  /** What `Disassemble` returns for a whole instruction stream: the text of
      the lines the loop appends, or the exception that stops it. */
  function Disassembly(ins: seq<byte>): Result<string, Exception> {
    var lines :- DisassembleFrom(ins, 0);
    Success(Render(lines))
  }

  /** `Instruction.Disassemble`: the while loop that walks the stream with `i`.
      The StringBuilder is modelled by the sequence of lines appended to it;
      its text is `Render` of that sequence (see Disassembly). */
  method Disassemble(ins: seq<byte>) returns (r: Result<seq<Line>, Exception>)
    ensures r == DisassembleFrom(ins, 0)
    ensures r.Success? ==> Disassembly(ins) == Success(Render(r.value))
    ensures r.Failure? ==> Disassembly(ins) == Failure(r.error)
  {
    var builder: seq<Line> := [];
    var i := 0;
    PrependNoLines(DisassembleFrom(ins, 0));
    while i < |ins|
      invariant 0 <= i
      invariant DisassembleFrom(ins, 0) == PrependLines(builder, DisassembleFrom(ins, i))
      decreases |ins| - i
    {
      var def := Of(AsOpcode(ins[i]));
      var line, next;
      if def.None? {
        line, next := Undefined(ins[i]), i + 1;
      } else {
        var read := ReadOperands(def.value, ins[i + 1..]);
        if read.Failure? {
          assert DisassembleStep(ins, i) == Failure(read.error);
          return Failure(read.error);
        }
        var (operands, n) := read.value;
        line, next := Instruction(i, def.value, operands), i + 1 + n;
      }
      assert DisassembleStep(ins, i) == Success((line, next));
      PrependLinesStep(builder, line, DisassembleFrom(ins, next));
      builder := builder + [line];
      i := next;
    }
    assert builder + [] == builder;
    return Success(builder);
  }

  function PrependLines(done: seq<Line>, r: Result<seq<Line>, Exception>): Result<seq<Line>, Exception> {
    match r
    case Success(lines) => Success(done + lines)
    case Failure(e) => Failure(e)
  }

  lemma PrependNoLines(r: Result<seq<Line>, Exception>)
    ensures PrependLines([], r) == r
  {
    if r.Success? { assert [] + r.value == r.value; }
  }

  lemma PrependLinesStep(done: seq<Line>, line: Line, r: Result<seq<Line>, Exception>)
    ensures PrependLines(done, PrependLine(line, r)) == PrependLines(done + [line], r)
  {
    if r.Success? { assert done + ([line] + r.value) == (done + [line]) + r.value; }
  }

  lemma RenderSnoc(lines: seq<Line>, line: Line)
    ensures Render(lines + [line]) == Render(lines) + RenderLine(line)
  {
    assert (lines + [line])[..|lines|] == lines;
  }

  /** Every line from offset `i` on sits at an offset of at least `i`, and the
      instruction offsets strictly increase from line to line. */
  lemma {:induction false} DisassembleOffsets(ins: seq<byte>, i: nat)
    requires DisassembleFrom(ins, i).Success?
    ensures var lines := DisassembleFrom(ins, i).value;
      (forall k | 0 <= k < |lines| :: lines[k].Instruction? ==> i <= lines[k].offset < |ins|)
      && (forall k, l | 0 <= k < l < |lines| && lines[k].Instruction? && lines[l].Instruction? ::
            lines[k].offset < lines[l].offset)
    decreases |ins| - i
  {
    if i < |ins| {
      var step := DisassembleStep(ins, i).value;
      DisassembleOffsets(ins, step.1);
      var rest := DisassembleFrom(ins, step.1).value;
      var lines := DisassembleFrom(ins, i).value;
      assert lines == [step.0] + rest;
      assert step.0.Instruction? ==> step.0.offset == i;
      forall k | 0 < k < |lines| ensures lines[k] == rest[k - 1] {
      }
    }
  }

  /** An instruction built by `Make` and placed at offset `i` disassembles to
      one line at that offset, and the scan resumes right after its last
      operand byte, 1 + 2 * |operands| bytes further on. */
  lemma DisassembleMade(ins: seq<byte>, i: nat, op: Opcode, operands: seq<int32>)
    requires Of(op).Some? && |operands| == |Of(op).value.operandWidths|
    requires forall k | 0 <= k < |operands| :: 0 <= operands[k] < 0x1_0000
    requires i + 1 + 2 * |operands| <= |ins| && ins[i..i + 1 + 2 * |operands|] == Make(op, operands)
    ensures DisassembleFrom(ins, i)
         == PrependLine(Instruction(i, Of(op).value, operands), DisassembleFrom(ins, i + 1 + 2 * |operands|))
  {
    var made := Make(op, operands);
    var next := i + 1 + 2 * |operands|;
    MakeReadOperandsRoundTrip(op, operands, ins[next..]);
    SliceAt(ins, i, made);
    assert DisassembleStep(ins, i) == Success((Instruction(i, Of(op).value, operands), next));
  }

  /** A segment found at offset `i` of a stream: its first element is the
      stream's element `i`, and the rest of the segment starts the stream's
      remainder after `i`. */
  lemma SliceAt(ins: seq<byte>, i: nat, segment: seq<byte>)
    requires 1 <= |segment| && i + |segment| <= |ins| && ins[i..i + |segment|] == segment
    ensures ins[i] == segment[0]
    ensures ins[i + 1..] == segment[1..] + ins[i + |segment|..]
  {
    assert ins[i] == ins[i..i + |segment|][0];
  }

  /** A byte with no definition yields the inline error line and the scan
      advances by exactly one byte. */
  lemma DisassembleUndefined(ins: seq<byte>, i: nat)
    requires i < |ins| && Of(ins[i]).None?
    ensures ins[i] >= 20
    ensures DisassembleFrom(ins, i) == PrependLine(Undefined(ins[i]), DisassembleFrom(ins, i + 1))
    ensures RenderLine(Undefined(ins[i]))
         == "ERRER: No definition of " + Formatting.NatToString(ins[i]) + " found\n"
  {
  }

  /** A two-byte operand in 0..65535 is encoded as its high byte, then its low byte. */
  lemma ToBigEndianTwoBytes(value: int32)
    requires 0 <= value < 0x1_0000
    ensures ToBigEndian(value, 2) == [value / 256, value % 256]
  {
    var be := ToBigEndian(value, 2);
    ReadUint16OfToBigEndian(value, []);
    assert be + [] == be;
    ReadUint16BigEndian(be);
  }

  /** An opcode without operands encodes as its byte alone: `Zip` drops
      whatever operands are passed. */
  lemma MakeBare(op: Opcode, operands: seq<int32>)
    requires op <= Hash && !HasOperand(op)
    ensures Make(op, operands) == [op]
  {
  }

  /** `Make(OpConstant, x)` is the opcode byte followed by x's two bytes,
      high byte first. */
  lemma MakeConstant(x: int32)
    requires 0 <= x < 0x1_0000
    ensures Make(Constant, [x]) == [Constant, x / 256, x % 256]
  {
    ToBigEndianTwoBytes(x);
    assert EncodeOperands([x], [2]) == ToBigEndian(x, 2) + EncodeOperands([], []);
  }

  /** The encodings in the bytecode tests: 2, 65534 and 65535 as Constant operands. */
  lemma MakeConstants()
    ensures Make(Constant, [2]) == [0, 0, 2]
    ensures Make(Constant, [65534]) == [0, 255, 254]
    ensures Make(Constant, [65535]) == [0, 255, 255]
  {
    MakeConstant(2);
    MakeConstant(65534);
    MakeConstant(65535);
  }

  /** Two consecutive Constant instructions sit at offsets 0000 and 0003. */
  lemma DisassembleTwoConstants()
    ensures DisassembleFrom([0, 0, 2, 0, 255, 255], 0)
         == Success([Instruction(0, Of(Constant).value, [2]), Instruction(3, Of(Constant).value, [65535])])
    ensures Disassembly([0, 0, 2, 0, 255, 255])
         == Success("0000 OpConstant 2\n" + "0003 OpConstant 65535\n")
  {
    var ins: seq<byte> := [0, 0, 2, 0, 255, 255];
    var l0, l3 := Instruction(0, Of(Constant).value, [2]), Instruction(3, Of(Constant).value, [65535]);
    DisassembleSecondConstant(ins);
    assert ins[0..3] == Make(Constant, [2]) by {
      MakeConstants();
    }
    DisassembleMade(ins, 0, Constant, [2]);
    assert [l0] + [l3] == [l0, l3];
    RenderTwoConstants(l0, l3);
  }

  lemma DisassembleSecondConstant(ins: seq<byte>)
    requires ins == [0, 0, 2, 0, 255, 255]
    ensures DisassembleFrom(ins, 3) == Success([Instruction(3, Of(Constant).value, [65535])])
  {
    assert ins[3..6] == Make(Constant, [65535]) by {
      MakeConstants();
    }
    DisassembleMade(ins, 3, Constant, [65535]);
    assert DisassembleFrom(ins, 6) == Success([]);
    assert [Instruction(3, Of(Constant).value, [65535])] + [] == [Instruction(3, Of(Constant).value, [65535])];
  }

  lemma RenderTwoConstants(l0: Line, l3: Line)
    requires l0 == Instruction(0, Of(Constant).value, [2])
    requires l3 == Instruction(3, Of(Constant).value, [65535])
    ensures Render([l0, l3]) == "0000 OpConstant 2\n" + "0003 OpConstant 65535\n"
  {
    RenderPair(l0, l3);
    Formatting.D4Small(0);
    ConstantLine(0, 2, "0000", "2");
    Formatting.D4Small(3);
    Numeral65535();
    ConstantLine(3, 65535, "0003", "65535");
    JoinConstantLines();
  }

  lemma JoinConstantLines()
    ensures ("0000" + " " + ("OpConstant" + " " + "2") + "\n") + ("0003" + " " + ("OpConstant" + " " + "65535") + "\n")
         == "0000 OpConstant 2\n" + "0003 OpConstant 65535\n"
  {
  }

  lemma RenderPair(a: Line, b: Line)
    ensures Render([a, b]) == RenderLine(a) + RenderLine(b)
  {
    RenderSnoc([], a);
    RenderSnoc([a], b);
    assert [] + [a] == [a] && [a] + [b] == [a, b];
    assert "" + RenderLine(a) == RenderLine(a);
  }

  /** The line of a Constant instruction: offset, name and operand. */
  lemma ConstantLine(offset: nat, x: int, d4: string, text: string)
    requires Formatting.D4(offset) == d4 && Formatting.IntToString(x) == text
    ensures RenderLine(Instruction(offset, Of(Constant).value, [x])) == d4 + " " + ("OpConstant" + " " + text) + "\n"
  {
    ConstantName();
  }

  lemma ConstantName()
    ensures Name(Of(Constant).value) == "OpConstant"
  {
    assert OpcodeName(Constant) == "Constant";
  }

  lemma Numeral65535()
    ensures Formatting.IntToString(65535) == "65535"
  {
    assert Formatting.NatToString(65) == "65";
    assert Formatting.NatToString(655) == "655";
    assert Formatting.NatToString(6553) == "6553";
  }
}
