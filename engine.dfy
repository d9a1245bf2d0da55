/** The decoder and formatter the render loop drives. Both are foreign code;
    the model keeps only what the loop relies on: the decoder yields a finite
    sequence of instructions, and formatting an instruction writes a fixed
    sequence of fragments into the sink, left to right. */
module Engine {
  import opened Classifier
  import opened Sink

  newtype byte = x: int | 0 <= x < 0x100
  newtype u32 = x: int | 0 <= x < 0x1_0000_0000
  newtype u64 = x: int | 0 <= x < 0x1_0000_0000_0000_0000

  /** A decoded instruction: the bit width it was decoded in, the address it
      starts at and the bytes it occupies. The same bytes mean different
      instructions in different widths, so the width is part of the value.
      Its meaning is the formatter's business. */
  datatype Instruction = Instruction(bitness: u32, ip: u64, code: seq<byte>)

  /** Decoding a byte buffer from a start address in a given bit width. */
  type Decoder = (seq<byte>, u64, u32) -> seq<Instruction>

  /** The fragments the formatter emits for an instruction, in display order. */
  type Formatter = Instruction -> seq<Fragment>

  /** `formatter.format(&instruction, &mut output)`: one `write` call per
      fragment, in order, so the sink ends with those fragments appended. */
  method Format(formatter: Formatter, instruction: Instruction, output: Output)
    modifies output
    ensures output.vec == old(output.vec) + formatter(instruction)
  {
    var fragments := formatter(instruction);
    for j := 0 to |fragments|
      invariant output.vec == old(output.vec) + fragments[..j]
    {
      output.Write(fragments[j].0, fragments[j].1);
      assert fragments[..j + 1] == fragments[..j] + [fragments[j]];
    }
    assert fragments[..|fragments|] == fragments;
  }
}
