/** Key-pair generation: the two-call "probe the sizes, then fill the buffers"
    negotiation with the native library, once per algorithm family, and the
    panicking entry points over it.

    `Run` is the negotiation as a state machine over `Phase`
    (Start -> Probed -> Filled -> Finished); `TryGenKeyPair` is the same
    negotiation written step by step over byte vectors, and is proved to
    produce exactly the result and the native calls that `Run` describes. */
module Keygen {
  import opened Buffers
  import opened Keys
  import opened Errors
  import opened Bindings

  /** The first call: null buffers, both length counters zero. */
  function ProbeRequest(family: Family): Request {
    Request(family, false, 0, false, 0)
  }

  /** The second call: both buffers supplied, with the counters the probe left. */
  function FillRequest(family: Family, privateLen: nat, publicLen: nat): Request {
    Request(family, true, privateLen, true, publicLen)
  }

  /** The first `n` bytes of a fresh `capacity`-byte allocation after the native
      library stored `bytes` at its start: the stored bytes, then fresh memory. */
  function Written(bytes: seq<byte>, capacity: nat, n: nat): (r: seq<byte>)
    requires |bytes| <= capacity && n <= capacity
    ensures |r| == n
    ensures n <= |bytes| ==> r == bytes[..n]
    ensures forall i :: 0 <= i < n ==> r[i] == if i < |bytes| then bytes[i] else 0
  {
    Overwrite(Zeros(capacity), bytes)[..n]
  }

  datatype Phase =
    | Start
      /** The probe asked for these lengths and both buffers were reserved to them. */
    | Probed(privateLen: nat, publicLen: nat)
      /** The fill succeeded and both buffers have their final length. */
    | Filled(privateBytes: seq<byte>, publicBytes: seq<byte>)
    | Finished(result: Result<KeyPair>)

  /** One transition: the next phase and the native calls it made (none or one). */
  datatype Step = Step(next: Phase, calls: seq<Request>)

  /** The result of a whole negotiation and every native call it made, in order. */
  datatype Trace = Trace(result: Result<KeyPair>, calls: seq<Request>)

  function Rank(phase: Phase): nat {
    match phase
    case Start => 3
    case Probed(_, _) => 2
    case Filled(_, _) => 1
    case Finished(_) => 0
  }

  /** How many native calls are still to come from `phase` at most. */
  function CallsLeft(phase: Phase): nat {
    match phase
    case Start => 2
    case Probed(_, _) => 1
    case Filled(_, _) => 0
    case Finished(_) => 0
  }

  /** A finished result is either an error or a pair of `family` keys. */
  predicate Tagged(family: Family, result: Result<KeyPair>) {
    result.Ok? ==> result.value.Valid() && result.value.Of(family)
  }

  /** The transition out of an unfinished phase, for call index `k`. */
  ghost function Advance(family: Family, phase: Phase, answer: (nat, Request) -> Reply, k: nat): (s: Step)
    requires Honest(answer)
    requires !phase.Finished?
    ensures Rank(s.next) < Rank(phase)
    ensures |s.calls| + CallsLeft(s.next) <= CallsLeft(phase)
    ensures forall i :: 0 <= i < |s.calls| ==> s.calls[i].family == family
    ensures s.next.Finished? ==> Tagged(family, s.next.result)
  {
    match phase
    case Start =>
      var reply := answer(k, ProbeRequest(family));
      var error := FromThemisStatus(reply.status);
      if error.kind != BufferTooSmall then
        Step(Finished(Err(error)), [ProbeRequest(family)])
      else
        Step(Probed(reply.privateLen, reply.publicLen), [ProbeRequest(family)])
    case Probed(privateLen, publicLen) =>
      var request := FillRequest(family, privateLen, publicLen);
      var reply := answer(k, request);
      assert Honours(request, reply);
      var error := FromThemisStatus(reply.status);
      if error.kind != Success then
        Step(Finished(Err(error)), [request])
      else
        Step(Filled(Written(reply.privateBytes, privateLen, reply.privateLen),
                    Written(reply.publicBytes, publicLen, reply.publicLen)), [request])
    case Filled(privateBytes, publicBytes) =>
      Step(Finished(Ok(Join(PrivateKey(family, privateBytes), PublicKey(family, publicBytes)))), [])
  }

  /** The negotiation from `phase` to its end, its first native call having index `k`. */
  ghost function Run(family: Family, phase: Phase, answer: (nat, Request) -> Reply, k: nat): (t: Trace)
    requires Honest(answer)
    ensures |t.calls| <= CallsLeft(phase)
    ensures forall i :: 0 <= i < |t.calls| ==> t.calls[i].family == family
    ensures (phase.Finished? ==> Tagged(family, phase.result)) ==> Tagged(family, t.result)
    decreases Rank(phase)
  {
    if phase.Finished? then
      Trace(phase.result, [])
    else
      var s := Advance(family, phase, answer, k);
      var rest := Run(family, s.next, answer, k + |s.calls|);
      Trace(rest.result, s.calls + rest.calls)
  }

  /** The negotiation of one generation whose first native call has index `k`. */
  ghost function Generation(family: Family, answer: (nat, Request) -> Reply, k: nat): Trace
    requires Honest(answer)
  {
    Run(family, Start, answer, k)
  }

  /** A probe that does not report "buffer too small", success included, ends the
      generation with that status's error after that one call: nothing is
      reserved and the native library is not called again. */
  lemma ProbeFailureStops(family: Family, answer: (nat, Request) -> Reply, k: nat)
    requires Honest(answer)
    requires answer(k, ProbeRequest(family)).status != BufferTooSmall
    ensures Generation(family, answer, k)
            == Trace(Err(Error(answer(k, ProbeRequest(family)).status)), [ProbeRequest(family)])
  {
    assert Advance(family, Start, answer, k).next.Finished?;
  }

  /** After a probe reporting "buffer too small", the fill call is given the very
      lengths the probe reported, and a fill status other than success ends the
      generation with that error after exactly these two calls. */
  lemma FillFailureStops(family: Family, answer: (nat, Request) -> Reply, k: nat)
    requires Honest(answer)
    requires answer(k, ProbeRequest(family)).status == BufferTooSmall
    requires var probe := answer(k, ProbeRequest(family));
             answer(k + 1, FillRequest(family, probe.privateLen, probe.publicLen)).status != Success
    ensures var probe := answer(k, ProbeRequest(family));
            var fill := FillRequest(family, probe.privateLen, probe.publicLen);
            Generation(family, answer, k)
            == Trace(Err(Error(answer(k + 1, fill).status)), [ProbeRequest(family), fill])
  {
    var probe := answer(k, ProbeRequest(family));
    var s := Advance(family, Start, answer, k);
    assert s.next == Probed(probe.privateLen, probe.publicLen);
    var s' := Advance(family, s.next, answer, k + 1);
    assert s'.next.Finished?;
    assert Run(family, s.next, answer, k + 1).calls == s'.calls;
  }

  /** When the probe reports "buffer too small" and the fill succeeds, the result
      is a pair of `family` keys after exactly the probe and the fill call. Each
      key holds exactly as many bytes as the fill reported for it: the bytes the
      library stored, followed by untouched reserved memory if it reported more
      than it stored. The fill call is given the lengths the probe reported. */
  lemma FillSuccessBuildsPair(family: Family, answer: (nat, Request) -> Reply, k: nat)
    requires Honest(answer)
    requires answer(k, ProbeRequest(family)).status == BufferTooSmall
    requires var probe := answer(k, ProbeRequest(family));
             answer(k + 1, FillRequest(family, probe.privateLen, probe.publicLen)).status == Success
    ensures var probe := answer(k, ProbeRequest(family));
            var request := FillRequest(family, probe.privateLen, probe.publicLen);
            var fill := answer(k + 1, request);
            var t := Generation(family, answer, k);
            && fill.privateLen <= probe.privateLen && fill.publicLen <= probe.publicLen
            && t.calls == [ProbeRequest(family), request]
            && t.result.Ok?
            && t.result.value.Of(family)
            && t.result.value.privateKey.bytes == Written(fill.privateBytes, probe.privateLen, fill.privateLen)
            && t.result.value.publicKey.bytes == Written(fill.publicBytes, probe.publicLen, fill.publicLen)
            && |t.result.value.privateKey.bytes| == fill.privateLen
            && |t.result.value.publicKey.bytes| == fill.publicLen
  {
    var probe := answer(k, ProbeRequest(family));
    var request := FillRequest(family, probe.privateLen, probe.publicLen);
    assert Honours(request, answer(k + 1, request));
    var s := Advance(family, Start, answer, k);
    assert s.next == Probed(probe.privateLen, probe.publicLen);
    var s' := Advance(family, s.next, answer, k + 1);
    assert s'.next.Filled?;
    var s'' := Advance(family, s'.next, answer, k + 2);
    assert s''.next.Finished? && s''.calls == [];
    assert Run(family, s'.next, answer, k + 2).calls == [];
    assert Run(family, s.next, answer, k + 1).calls == [request];
  }

  /** A generation succeeds if and only if the probe reports "buffer too small"
      and the fill call reports success. */
  lemma GenerationSucceedsIff(family: Family, answer: (nat, Request) -> Reply, k: nat)
    requires Honest(answer)
    ensures var probe := answer(k, ProbeRequest(family));
            var fill := answer(k + 1, FillRequest(family, probe.privateLen, probe.publicLen));
            Generation(family, answer, k).result.Ok?
            <==> probe.status == BufferTooSmall && fill.status == Success
  {
    var probe := answer(k, ProbeRequest(family));
    if probe.status != BufferTooSmall {
      ProbeFailureStops(family, answer, k);
    } else if answer(k + 1, FillRequest(family, probe.privateLen, probe.publicLen)).status != Success {
      FillFailureStops(family, answer, k);
    } else {
      FillSuccessBuildsPair(family, answer, k);
    }
  }

  /** The generic negotiation, written as the wrapper writes it for each family. */
  method TryGenKeyPair(family: Family, native: NativeLibrary) returns (r: Result<KeyPair>)
    requires native.Valid()
    modifies native
    ensures native.Valid() && native.answer == old(native.answer)
    ensures var t := Generation(family, native.answer, |old(native.log)|);
            r == t.result && native.log == old(native.log) + t.calls
  {
    ghost var k := |native.log|;
    var privateKey := new ByteVec();
    var publicKey := new ByteVec();
    var privateKeyLen: nat, publicKeyLen: nat := 0, 0;

    var status;
    status, privateKeyLen, publicKeyLen := native.Generate(family, null, privateKeyLen, null, publicKeyLen);
    var error := FromThemisStatus(status);
    if error.kind != BufferTooSmall {
      ProbeFailureStops(family, native.answer, k);
      return Err(error);
    }

    privateKey.Reserve(privateKeyLen);
    publicKey.Reserve(publicKeyLen);

    status, privateKeyLen, publicKeyLen := native.Generate(family, privateKey, privateKeyLen, publicKey, publicKeyLen);
    error := FromThemisStatus(status);
    if error.kind != Success {
      FillFailureStops(family, native.answer, k);
      return Err(error);
    }
    assert privateKeyLen <= privateKey.Capacity();
    assert publicKeyLen <= publicKey.Capacity();
    privateKey.SetLen(privateKeyLen);
    publicKey.SetLen(publicKeyLen);

    var privatePart := PrivateKey(family, privateKey.Contents());
    var publicPart := PublicKey(family, publicKey.Contents());
    FillSuccessBuildsPair(family, native.answer, k);
    r := Ok(Join(privatePart, publicPart));
  }

  /** `try_gen_rsa_key_pair`. */
  method TryGenRsaKeyPair(native: NativeLibrary) returns (r: Result<KeyPair>)
    requires native.Valid()
    modifies native
    ensures native.Valid() && native.answer == old(native.answer)
    ensures var t := Generation(RSA, native.answer, |old(native.log)|);
            r == t.result && native.log == old(native.log) + t.calls
    ensures r.Ok? ==> r.value.Valid() && r.value.Of(RSA)
    ensures forall i :: |old(native.log)| <= i < |native.log| ==> native.log[i].family == RSA
  {
    r := TryGenKeyPair(RSA, native);
  }

  /** `try_gen_ec_key_pair`. */
  method TryGenEcKeyPair(native: NativeLibrary) returns (r: Result<KeyPair>)
    requires native.Valid()
    modifies native
    ensures native.Valid() && native.answer == old(native.answer)
    ensures var t := Generation(ECDSA, native.answer, |old(native.log)|);
            r == t.result && native.log == old(native.log) + t.calls
    ensures r.Ok? ==> r.value.Valid() && r.value.Of(ECDSA)
    ensures forall i :: |old(native.log)| <= i < |native.log| ==> native.log[i].family == ECDSA
  {
    r := TryGenKeyPair(ECDSA, native);
  }

  /** What a panicking entry point does: hand back a pair, or abort the thread
      with a message naming the native function and the error. */
  datatype Outcome = Returned(pair: KeyPair) | Panicked(operation: string, error: Error)

  function NativeName(family: Family): string {
    match family
    case RSA => "themis_gen_rsa_key_pair"
    case ECDSA => "themis_gen_ec_key_pair"
  }

  /** The `match` of `gen_rsa_key_pair` / `gen_ec_key_pair`: the pair of an `Ok`
      unchanged, a panic carrying the error of an `Err`; never a pair from an error. */
  function UnwrapOrPanic(operation: string, r: Result<KeyPair>): (o: Outcome)
    ensures o.Returned? <==> r.Ok?
    ensures r.Ok? ==> o.pair == r.value
    ensures r.Err? ==> o.operation == operation && o.error == r.error
  {
    match r
    case Ok(keys) => Returned(keys)
    case Err(e) => Panicked(operation, e)
  }

  /** `gen_rsa_key_pair`. */
  method GenRsaKeyPair(native: NativeLibrary) returns (o: Outcome)
    requires native.Valid()
    modifies native
    ensures native.Valid() && native.answer == old(native.answer)
    ensures var t := Generation(RSA, native.answer, |old(native.log)|);
            o == UnwrapOrPanic(NativeName(RSA), t.result) && native.log == old(native.log) + t.calls
    ensures o.Returned? ==> o.pair.Valid() && o.pair.Of(RSA)
  {
    var r := TryGenRsaKeyPair(native);
    o := UnwrapOrPanic(NativeName(RSA), r);
  }

  /** `gen_ec_key_pair`. */
  method GenEcKeyPair(native: NativeLibrary) returns (o: Outcome)
    requires native.Valid()
    modifies native
    ensures native.Valid() && native.answer == old(native.answer)
    ensures var t := Generation(ECDSA, native.answer, |old(native.log)|);
            o == UnwrapOrPanic(NativeName(ECDSA), t.result) && native.log == old(native.log) + t.calls
    ensures o.Returned? ==> o.pair.Valid() && o.pair.Of(ECDSA)
  {
    var r := TryGenEcKeyPair(native);
    o := UnwrapOrPanic(NativeName(ECDSA), r);
  }
}
