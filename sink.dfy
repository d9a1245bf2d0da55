/** The token sink the formatter writes into: an append-only buffer of
    (text, kind) fragments that the render loop empties before each
    instruction. */
module Sink {
  import opened Classifier

  /** One formatted fragment: its display text and its syntactic kind. */
  type Fragment = (string, Kind)

  class Output {
    var vec: seq<Fragment>

    /** `Output::new`: an empty buffer. */
    constructor ()
      ensures vec == []
    {
      vec := [];
    }

    /** `write`: appends exactly one fragment at the end; every earlier
        fragment stays where it was. */
    method Write(text: string, kind: Kind)
      modifies this
      ensures vec == old(vec) + [(text, kind)]
    {
      vec := vec + [(text, kind)];
    }

    /** `vec.clear()`: drops every fragment. */
    method Clear()
      modifies this
      ensures vec == []
    {
      vec := [];
    }
  }
}
