/** Typed key material: private and public keys are opaque byte strings
    tagged with the algorithm family that produced them, and a key pair joins
    one private and one public key of the same family. */
module Keys {
  import opened Buffers

  datatype Family = RSA | ECDSA

  datatype PrivateKey = PrivateKey(family: Family, bytes: seq<byte>)

  datatype PublicKey = PublicKey(family: Family, bytes: seq<byte>)

  datatype KeyPair = KeyPair(privateKey: PrivateKey, publicKey: PublicKey) {
    /** The two halves never mix algorithm families. */
    predicate Valid() {
      privateKey.family == publicKey.family
    }

    /** This pair consists of keys of `family` only. */
    predicate Of(family: Family) {
      privateKey.family == family && publicKey.family == family
    }
  }

  /** The two halves of a pair, private first. */
  function Split(pair: KeyPair): (PrivateKey, PublicKey) {
    (pair.privateKey, pair.publicKey)
  }

  /** Joins a private and a public key of one family into a pair. The typed
      wrappers (`RsaKeyPair::join`, `EcdsaKeyPair::join`) make a cross-family
      join impossible; here that is the precondition. */
  function Join(privateKey: PrivateKey, publicKey: PublicKey): (pair: KeyPair)
    requires privateKey.family == publicKey.family
    ensures pair.Valid() && pair.Of(privateKey.family)
    ensures Split(pair) == (privateKey, publicKey)
  {
    KeyPair(privateKey, publicKey)
  }

  /** Splitting a valid pair and joining its halves gives the pair back. */
  lemma JoinSplit(pair: KeyPair)
    requires pair.Valid()
    ensures Split(pair).0.family == Split(pair).1.family
    ensures Join(Split(pair).0, Split(pair).1) == pair
  {
  }
}
