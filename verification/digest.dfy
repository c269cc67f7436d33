/**
 * State digests. The simulator's `DigestCalculator` is not part of this
 * model; a digest is represented by the items fed into it, in order, so two
 * runs have equal digests in the model exactly when they fed the same items.
 */
module Digests {
  import opened Wrappers

  datatype DigestItem =
    | EatNumber(n: nat)          // `Eat` of an integer
    | EatText(s: string)         // `Eat` of a string
    | EatBytes(b: seq<Byte>)     // a file's contents
    | Combine(d: Digest)         // `Combine` with another digest's value

  datatype Digest =
    | Zero                       // the constant 0 a crashed server reports
    | Fed(items: seq<DigestItem>)

  /** The digest a file reports. The simulator's `File` is not part of this
      model; a file's digest is assumed to be a function of its bytes only. */
  function FileDigest(contents: seq<Byte>): Digest
  {
    Fed([EatBytes(contents)])
  }
}
