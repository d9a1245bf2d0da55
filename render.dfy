/** The render loop: decode the whole buffer, and for each instruction clear
    the sink, let the formatter fill it, print every fragment in the colour
    of its kind and end the line. Standard output is modelled as the
    sequence of finished lines. */
module Render {
  import opened Classifier
  import opened Sink
  import opened Engine

  /** One line of output: the coloured fragments printed between two line ends. */
  type Line = seq<ColoredString>

  /** The line printed for one instruction's fragments: each fragment in the
      colour of its kind, in emission order, and nothing else. */
  function RenderLine(fragments: seq<Fragment>): (line: Line)
    ensures |line| == |fragments|
    ensures forall j :: 0 <= j < |fragments| ==>
              line[j] == GetColor(fragments[j].0, fragments[j].1)
  {
    if fragments == [] then []
    else
      var n := |fragments| - 1;
      RenderLine(fragments[..n]) + [GetColor(fragments[n].0, fragments[n].1)]
  }

  /** Everything printed for a decoded instruction stream: one line per
      instruction, in decode order, each holding exactly that instruction's
      fragments. */
  function Rendered(instructions: seq<Instruction>, formatter: Formatter): (lines: seq<Line>)
    ensures |lines| == |instructions|
    ensures forall i :: 0 <= i < |instructions| ==> lines[i] == RenderLine(formatter(instructions[i]))
  {
    if instructions == [] then []
    else
      var n := |instructions| - 1;
      Rendered(instructions[..n], formatter) + [RenderLine(formatter(instructions[n]))]
  }

  /** `colorize(bytes, rip, bitness)`: the lines printed to standard output.
      The bit width is handed to the decoder unchecked. */
  method Colorize(bytes: seq<byte>, rip: u64, bitness: u32, decoder: Decoder, formatter: Formatter)
    returns (stdout: seq<Line>)
    ensures stdout == Rendered(decoder(bytes, rip, bitness), formatter)
  {
    var instructions := decoder(bytes, rip, bitness);
    var output := new Output();
    stdout := [];
    for i := 0 to |instructions|
      invariant stdout == Rendered(instructions[..i], formatter)
    {
      var instruction := instructions[i];
      output.Clear();
      Format(formatter, instruction, output);
      // print! of each fragment extends the current line
      var current: Line := [];
      for j := 0 to |output.vec|
        invariant output.vec == formatter(instruction)
        invariant current == RenderLine(output.vec[..j])
      {
        var (text, kind) := output.vec[j];
        current := current + [GetColor(text, kind)];
        assert output.vec[..j + 1][..j] == output.vec[..j];
      }
      assert output.vec[..|output.vec|] == output.vec;
      // println! ends it
      stdout := stdout + [current];
      assert instructions[..i + 1][..i] == instructions[..i];
    }
    assert instructions[..|instructions|] == instructions;
  }

  /** Output is streamed: rendering two consecutive parts of an instruction
      stream prints the first part's lines followed by the second's. */
  lemma RenderedAppend(a: seq<Instruction>, b: seq<Instruction>, formatter: Formatter)
    ensures Rendered(a + b, formatter) == Rendered(a, formatter) + Rendered(b, formatter)
  {
  }

  /** The text a line shows once its colours are stripped. */
  function PlainText(line: Line): string {
    if line == [] then "" else PlainText(line[..|line| - 1]) + line[|line| - 1].text
  }

  /** The texts the formatter wrote, run together. */
  function FragmentText(fragments: seq<Fragment>): string {
    if fragments == [] then "" else FragmentText(fragments[..|fragments| - 1]) + fragments[|fragments| - 1].0
  }

  /** Colouring changes no character: a printed line shows exactly the text
      the formatter produced. */
  lemma {:induction false} RenderLineKeepsText(fragments: seq<Fragment>)
    ensures PlainText(RenderLine(fragments)) == FragmentText(fragments)
  {
    if fragments != [] {
      var n := |fragments| - 1;
      var line := RenderLine(fragments);
      assert line[..n] == RenderLine(fragments[..n]);
      RenderLineKeepsText(fragments[..n]);
    }
  }

  /** A line depends on its own instruction only: nothing carries over from
      the instruction before it, and the same instruction renders the same
      line wherever it occurs. */
  lemma LineIsLocal(xs: seq<Instruction>, i: nat, ys: seq<Instruction>, j: nat, formatter: Formatter)
    requires i < |xs| && j < |ys| && xs[i] == ys[j]
    ensures Rendered(xs, formatter)[i] == Rendered(ys, formatter)[j]
  {
  }

  /** One instruction whose formatter output is a mnemonic, padding, two
      registers and a comma renders as one line: the mnemonic bright red,
      the registers bright blue, the padding green, and the comma, whose kind
      the classifier does not name, white. */
  lemma SingleInstructionLine(instruction: Instruction, formatter: Formatter)
    requires formatter(instruction) ==
      [("mov", Mnemonic), ("     ", Text), ("rbp", Register), (",", Punctuation), ("rsp", Register)]
    ensures Rendered([instruction], formatter) ==
      [[ColoredString("mov", BrightRed), ColoredString("     ", Green), ColoredString("rbp", BrightBlue),
        ColoredString(",", White), ColoredString("rsp", BrightBlue)]]
  {
    var line := Rendered([instruction], formatter)[0];
    assert line == RenderLine(formatter(instruction));
    assert line == [line[0], line[1], line[2], line[3], line[4]];
  }
}
