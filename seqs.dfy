/** Sequences of sequences, as `join('')` and `Buffer.concat` see them. */
module Seqs {

  /** The parts one after the other. */
  function Concat<T>(parts: seq<seq<T>>): seq<T> {
    if parts == [] then [] else parts[0] + Concat(parts[1..])
  }
}
