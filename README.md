# dasm render pipeline, modelled in Dafny

`dasm` prints raw x86 machine code as syntax-highlighted assembly. Its own
logic, in `src/main.rs`, is a thin layer around a decoder/formatter library
and a terminal colouring library. This project models that layer:

- **Colour classifier** (`classifier.dfy`, module `Classifier`): `get_color`,
  which paints a fragment's text in the colour of its formatter text kind.
  `Kind` holds all sixteen text kinds of the formatter. Ten of them are named
  by the classifier. The other six (`Punctuation`, `Decorator`, `SelectorValue`,
  `Data`, `Label`, `Function`) reach the white fallback arm. `Color` holds the
  sixteen named colours of the colouring library. `Palette` is the colour table
  written as data, and `GetColor` is proved to agree with it.
- **Token sink** (`sink.dfy`, module `Sink`): the `Output` buffer of
  `(text, kind)` fragments, with `new`, `write` and the `vec.clear()` the
  render loop performs.
- **Engine contract** (`engine.dfy`, module `Engine`): the decoder and the
  formatter are foreign code. They are passed in as functions. The decoder maps
  `(bytes, rip, bitness)` to a finite sequence of instructions. The formatter
  maps an instruction to its fragments. `Format` models the formatter's effect
  on the sink as one `write` call per fragment, in order.
- **Render loop** (`render.dfy`, module `Render`): `Colorize` clears the sink,
  lets the formatter fill it, prints each fragment in its colour, and ends the
  line. Standard output is the returned sequence of finished lines. It is
  proved equal to `Rendered`, the specification: one line per instruction, in
  decode order, and each line is exactly `RenderLine` of that instruction's
  fragments.

## Model

| member | source | states |
|---|---|---|
| `Classifier.GetColor` | src/main.rs:45-55 | the text is unchanged; the colour is the colour table's entry for a named kind and white otherwise; white exactly for kinds the match does not name; bright exactly for named kinds other than Text |
| `Classifier.ColorTable` | src/main.rs:46-54 | each row of the match: Directive/Keyword bright yellow, Prefix/Mnemonic bright red, Register bright blue, Number bright cyan, LabelAddress/FunctionAddress bright green, Text plain green, Operator bright magenta, every other kind white |
| `Classifier.WildcardKinds` | src/main.rs:46-54 | the kinds that fall to the wildcard arm are exactly Punctuation, Decorator, SelectorValue, Data, Label and Function, and no named kind is painted white |
| `Sink.Output.constructor` | src/main.rs:11-13 | a new sink is empty |
| `Sink.Output.Write` | src/main.rs:17-21 | appends exactly one `(text, kind)` pair at the end; earlier entries are unchanged and in order |
| `Sink.Output.Clear` | src/main.rs:33 | clearing leaves the sink empty |
| `Engine.Format` | src/main.rs:34-35 | formatting an instruction appends its fragments to the sink in emission order |
| `Render.RenderLine` | src/main.rs:37-39 | a line holds one coloured entry per fragment, in order, each with the fragment's text and the classifier's colour |
| `Render.Rendered` | src/main.rs:32-42 | one line per instruction, in decode order; line i is exactly the rendering of instruction i's fragments; no instructions gives no lines |
| `Render.Colorize` | src/main.rs:24-43 | the printed lines equal `Rendered` of the decoded instructions: because the sink is cleared before each format call, each line holds only its own instruction's fragments |
| `Render.RenderedAppend` | src/main.rs:32-42 | output is streamed: rendering `a + b` prints the lines of `a` followed by the lines of `b` |
| `Render.RenderLineKeepsText` | src/main.rs:37-39 | with colours stripped, a line shows exactly the concatenated text the formatter wrote |
| `Render.LineIsLocal` | src/main.rs:33-37 | a line depends only on its own instruction: nothing carries over from the previous one, and the same instruction renders the same line wherever it occurs |
| `Render.SingleInstructionLine` | src/main.rs:32-55 | one instruction with mnemonic, padding, register, comma and register fragments renders as one line in bright red, green, bright blue, white and bright blue |

## Left out


- `main` and the command-line arguments (src/main.rs:58-81): argument parsing and the defaults 64 and 0 are not modelled.
- Reading the input file (src/main.rs:76) is I/O, and its failure is a panic; the model starts from the byte buffer.
- The decoder and the Intel formatter are foreign code. Byte-level decoding, instruction lengths, decode-position progress and termination, and the first-operand column option (src/main.rs:28) are not modelled. They appear only as the `Decoder` and `Formatter` function parameters.
- Bit-width validation: `colorize` does not check `bitness` and hands it straight to the decoder (src/main.rs:25). The decoder library panics on widths other than 16, 32 and 64, so the program stops before printing anything. `Decoder` is a total function, so that panic is not modelled, and the model places no requirement on `bitness`.
- The terminal escape sequences that colour a string, and the bytes `print!`/`println!` write, are not modelled. A printed fragment is a `ColoredString` (text plus foreground colour), and a line end closes the current line. A failed write to standard output (a broken pipe, say) makes `print!`/`println!` panic; that failure is not modelled.
- The colouring library's true-colour values are left out of `Color`; the classifier never uses them.
