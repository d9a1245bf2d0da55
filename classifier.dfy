/** The colour classifier: maps the syntactic kind of a formatted text
    fragment to the terminal colour it is painted in. */
module Classifier {

  /** The formatter's text kinds. The first ten are the ones the classifier
      names; the remaining six exist in the formatter but are not named, so
      they reach the fallback arm. */
  datatype Kind =
    | Directive | Keyword | Prefix | Mnemonic | Register | Number
    | LabelAddress | FunctionAddress | Text | Operator
    | Punctuation | Decorator | SelectorValue | Data | Label | Function

  /** The sixteen named foreground colours of the terminal colouring library. */
  datatype Color =
    | Black | Red | Green | Yellow | Blue | Magenta | Cyan | White
    | BrightBlack | BrightRed | BrightGreen | BrightYellow
    | BrightBlue | BrightMagenta | BrightCyan | BrightWhite

  predicate IsBright(c: Color) {
    c.BrightBlack? || c.BrightRed? || c.BrightGreen? || c.BrightYellow? ||
    c.BrightBlue? || c.BrightMagenta? || c.BrightCyan? || c.BrightWhite?
  }

  /** A string with a foreground colour attached. */
  datatype ColoredString = ColoredString(text: string, fg: Color)

  /** The colour table as data: the colour of each named kind. A kind that
      is not a key is painted with the fallback colour. */
  const Palette: map<Kind, Color> := map[
    Directive := BrightYellow, Keyword := BrightYellow,
    Prefix := BrightRed, Mnemonic := BrightRed,
    Register := BrightBlue,
    Number := BrightCyan,
    LabelAddress := BrightGreen, FunctionAddress := BrightGreen,
    Text := Green,
    Operator := BrightMagenta
  ]

  const Fallback: Color := White

  /** The kinds the classifier matches explicitly: the keys of the table. */
  const Listed: set<Kind> := Palette.Keys

  /** `get_color`: paints `s` with the colour of `kind`. The text is carried
      unchanged; the colour is the table's, white exactly for the kinds the
      classifier does not name, and bright for every named kind except Text. */
  function GetColor(s: string, kind: Kind): (r: ColoredString)
    ensures r.text == s
    ensures r.fg == if kind in Palette then Palette[kind] else Fallback
    ensures r.fg == White <==> kind !in Listed
    ensures IsBright(r.fg) <==> kind in Listed && kind != Text
  {
    match kind
    case Directive | Keyword => ColoredString(s, BrightYellow)
    case Prefix | Mnemonic => ColoredString(s, BrightRed)
    case Register => ColoredString(s, BrightBlue)
    case Number => ColoredString(s, BrightCyan)
    case LabelAddress | FunctionAddress => ColoredString(s, BrightGreen)
    case Text => ColoredString(s, Green)
    case Operator => ColoredString(s, BrightMagenta)
    case _ => ColoredString(s, White)
  }

  /** Row by row, the colours the classifier assigns. */
  lemma ColorTable(s: string)
    ensures GetColor(s, Directive).fg == BrightYellow && GetColor(s, Keyword).fg == BrightYellow
    ensures GetColor(s, Prefix).fg == BrightRed && GetColor(s, Mnemonic).fg == BrightRed
    ensures GetColor(s, Register).fg == BrightBlue
    ensures GetColor(s, Number).fg == BrightCyan
    ensures GetColor(s, LabelAddress).fg == BrightGreen && GetColor(s, FunctionAddress).fg == BrightGreen
    ensures GetColor(s, Text).fg == Green
    ensures GetColor(s, Operator).fg == BrightMagenta
    ensures forall k :: k !in Listed ==> GetColor(s, k).fg == White
  {
  }

  /** The kinds that reach the fallback arm are exactly the six the match
      does not name, and the fallback colour is the colour of no named kind. */
  lemma WildcardKinds(k: Kind)
    ensures k !in Listed <==>
            k.Punctuation? || k.Decorator? || k.SelectorValue? || k.Data? || k.Label? || k.Function?
    ensures Fallback !in Palette.Values
  {
  }
}
