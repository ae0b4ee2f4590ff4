/** Generations against a stub native library that asks for fixed lengths on
    the probe and fills exactly that many non-zero bytes once given buffers
    large enough. */
module Scenarios {
  import opened Buffers
  import opened Keys
  import opened Errors
  import opened Bindings
  import opened Keygen

  function Stub(privateLen: nat, publicLen: nat): (nat, Request) -> Reply {
    (k: nat, q: Request) =>
      if q.privateOut && q.publicOut && privateLen <= q.privateLen && publicLen <= q.publicLen then
        Reply(Success, privateLen, publicLen, seq(privateLen, _ => 1), seq(publicLen, _ => 1))
      else
        Reply(BufferTooSmall, privateLen, publicLen, [], [])
  }

  lemma StubHonest(privateLen: nat, publicLen: nat)
    ensures Honest(Stub(privateLen, publicLen))
  {
    forall k: nat, q: Request ensures Honours(q, Stub(privateLen, publicLen)(k, q)) {
    }
  }

  /** A stub generation of `family` succeeds after two calls, with keys of exactly
      the requested lengths holding the bytes the stub wrote. */
  lemma StubGeneration(family: Family, privateLen: nat, publicLen: nat)
    ensures Honest(Stub(privateLen, publicLen))
    ensures var t := Generation(family, Stub(privateLen, publicLen), 0);
            && |t.calls| == 2
            && t.result.Ok? && t.result.value.Of(family)
            && t.result.value.privateKey.bytes == seq(privateLen, _ => 1)
            && t.result.value.publicKey.bytes == seq(publicLen, _ => 1)
  {
    StubHonest(privateLen, publicLen);
    FillSuccessBuildsPair(family, Stub(privateLen, publicLen), 0);
  }

  /** RSA with a 2048-byte private and a 512-byte public key. */
  lemma RsaScenario()
    ensures Honest(Stub(2048, 512))
    ensures var t := Generation(RSA, Stub(2048, 512), 0);
            t.result.Ok? && t.result.value.Of(RSA)
            && |t.result.value.privateKey.bytes| == 2048 && |t.result.value.publicKey.bytes| == 512
  {
    StubGeneration(RSA, 2048, 512);
  }

  /** ECDSA with a 96-byte private and a 68-byte public key. */
  lemma EcdsaScenario()
    ensures Honest(Stub(96, 68))
    ensures var t := Generation(ECDSA, Stub(96, 68), 0);
            t.result.Ok? && t.result.value.Of(ECDSA)
            && |t.result.value.privateKey.bytes| == 96 && |t.result.value.publicKey.bytes| == 68
  {
    StubGeneration(ECDSA, 96, 68);
  }

  /** The step-by-step RSA generation run against the 2048/512 stub. */
  method RsaStubClient() returns (r: Result<KeyPair>)
    ensures r.Ok? && r.value.Of(RSA)
    ensures |r.value.privateKey.bytes| == 2048 && |r.value.publicKey.bytes| == 512
  {
    StubHonest(2048, 512);
    var native := new NativeLibrary(Stub(2048, 512));
    r := TryGenRsaKeyPair(native);
    RsaScenario();
  }

  /** The panicking ECDSA entry point run against the 96/68 stub returns a pair. */
  method EcdsaStubClient() returns (o: Outcome)
    ensures o.Returned? && o.pair.Of(ECDSA)
    ensures |o.pair.privateKey.bytes| == 96 && |o.pair.publicKey.bytes| == 68
  {
    StubHonest(96, 68);
    var native := new NativeLibrary(Stub(96, 68));
    o := GenEcKeyPair(native);
    EcdsaScenario();
  }
}
