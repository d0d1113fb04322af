/**
 * The cryptographic primitives the factory calls. Their implementations are
 * not part of this model: they are passed in as function values, so every
 * property proved holds for every choice of them.
 */
module Crypto {
  import opened Types

  datatype Primitives = Primitives(
    /** `sha_256` */
    sha256: Bytes -> Hash,
    /** the bytes of `base64::encode` */
    base64: Bytes -> Bytes,
    /** `Prng::new(seed, entropy).rand_bytes()` */
    randBytes: (Bytes, Bytes) -> Hash,
    /** `ViewingKey::new(env, seed, entropy)` */
    newViewingKey: (Env, Bytes, Bytes) -> string,
    /** `ViewingKey::to_hashed` */
    hashViewingKey: string -> Hash)

  /** `ViewingKey::check_viewing_key`: the key hashes to `expected`. */
  predicate CheckViewingKey(p: Primitives, key: string, expected: Hash) {
    p.hashViewingKey(key) == expected
  }
}
