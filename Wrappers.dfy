/** The usual Some/None datatype, standing in for Python's `None`. */
module Wrappers {
  datatype Option<+T> = None | Some(value: T)
}

/** Facts about sequences that the proofs of several modules share. */
module Sequences {
  /** Concatenation regroups freely; stated once so a proof can name the one step it needs. */
  lemma AppendAssoc(a: string, b: string, c: string)
    ensures (a + b) + c == a + (b + c)
  {
  }
}
