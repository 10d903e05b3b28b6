/**
 * The foreign primitives the ledger relies on, modelled by their contracts only.
 *
 * SHA-256 (FIPS 180-4) and RSASSA-PSS with SHA-256 and MGF1 (section 8.1 of RFC 8017)
 * are not implemented: they enter the model as function values, and what the ledger
 * assumes of them is stated as a predicate that the lemmas needing it require.
 */
module Crypto {

  newtype Byte = b: int | 0 <= b < 256

  type Bytes = seq<Byte>

  /** The newline byte that terminates every serialized transaction in a block. */
  const NL: Byte := 10

  /** A hash function on byte strings: SHA-256 in the source. */
  type Hasher = Bytes -> Bytes

  /** The idealisation tamper detection rests on: distinct messages have distinct digests. */
  ghost predicate CollisionFree(h: Hasher)
  {
    forall a, b :: h(a) == h(b) ==> a == b
  }

  /** A public key in its canonical serialized form (PEM text, PKCS#1). */
  type PublicKey = string

  /** Opaque private-key material. */
  type PrivateKey = Bytes

  /** The raw bytes of a signature. */
  type Signature = Bytes

  /**
   * The signature primitive of sign.py. `sign` takes the message, the private key and the
   * random salt that PSS padding draws; `verify` is total and answers with a boolean, since
   * the source turns the library's InvalidSignature exception into `False`.
   */
  datatype Scheme = Scheme(
    publicOf: PrivateKey -> PublicKey,
    sign: (Bytes, PrivateKey, Bytes) -> Signature,
    verify: (Bytes, Signature, PublicKey) -> bool)

  /**
   * What the ledger assumes of the signature scheme: a fresh signature verifies over its own
   * message under the signer's public key, and under no other message or key.
   */
  ghost predicate Sound(s: Scheme)
  {
    && (forall m, k, salt :: s.verify(m, s.sign(m, k, salt), s.publicOf(k)))
    && (forall m, m', k, salt, p :: s.verify(m', s.sign(m, k, salt), p) ==> m' == m && p == s.publicOf(k))
  }
}
