/**
 SHA-256 is taken as an ideal hash: a digest is the input it was made from, so distinct inputs have distinct
 digests.
 */
module Hashes {
  datatype Digest = Sha256(input: string)
}
