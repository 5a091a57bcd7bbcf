/** The selection that the primary compute is to serve, and its acknowledgement by that compute. */
module Selections {
  import opened Options

  type Name = string

  function Lower(c: char): char {
    if 'A' <= c <= 'Z' then c + ('a' - 'A') else c
  }

  /** Names that differ only in the case of their letters are taken to be equal when selections are compared. */
  function Fold(name: Name): Name {
    seq(|name|, i requires 0 <= i < |name| => Lower(name[i]))
  }

  /** A generation, the selected branch, and what is attached to it. */
  datatype Selection<A> = Selection(generation: Option<nat>, branch: Name, timeline: A)

  /** Whether the applied selection acknowledges the expected one. */
  predicate Matches<A(==)>(applied: Selection<A>, expected: Selection<A>) {
    && (expected.generation == None || applied.generation == expected.generation)
    && Fold(applied.branch) == Fold(expected.branch)
    && applied.timeline == expected.timeline
  }

  /** The primary compute: it clears the applied file, reads the selection file, and writes the applied file. */
  datatype Compute<A> =
    | Off | Booting | Cleared
    | Loaded(selection: Selection<A>)
    | Serving(selection: Selection<A>, ready: bool)
}
