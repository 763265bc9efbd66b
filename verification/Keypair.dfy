/** stellar/keypair.go: the shape of a key, 56 base-32 characters with a fixed first letter. */
module Keypair {
  predicate IsBase32(c: char) {
    'A' <= c <= 'Z' || '2' <= c <= '7'
  }

  predicate IsKey(first: char, s: string) {
    |s| == 56 && s[0] == first && forall i :: 1 <= i < |s| ==> IsBase32(s[i])
  }

  predicate IsPublicKey(s: string) {
    IsKey('G', s)
  }

  predicate IsSeed(s: string) {
    IsKey('S', s)
  }
}
