# Themis key-pair generation, modelled in Dafny

This project models the key-pair generator of the Rust wrapper of Themis
(`src/wrappers/themis/rust/src/keygen.rs`). For RSA and for ECDSA it talks to
the native `themis_gen_*_key_pair` function in two calls:

1. The first call is the **probe**. It gets null buffers and two length
   counters set to zero. It must answer "buffer too small" and leave the
   required lengths in the counters.
2. The wrapper reserves that much room in two byte vectors.
3. The second call is the **fill**. It gets the buffers and the same counters.
   It must answer "success" and leave the written lengths in the counters.
4. The wrapper fixes each vector's length to that count. It wraps the vectors
   as a private and a public key of the family and joins them into a pair.

Any other status ends the generation with that status's error. The panicking
entry points `gen_rsa_key_pair` and `gen_ec_key_pair` hand back the pair or abort.

Files and modules:

- `buffers.dfy`, module `Buffers`: bytes, and `ByteVec`, a class modelling a
  `Vec<u8>`. It has an allocation `mem`, whose length is the capacity, and a
  logical length `len`. Its methods are `Reserve`, `SetLen` and `Write`.
  `Write` is what the native library does through `as_mut_ptr`.
- `keys.dfy`, module `Keys`: the algorithm `Family`, `PrivateKey`,
  `PublicKey`, `KeyPair`, and `Join` / `Split`.
- `errors.dfy`, module `Errors`: `ErrorKind` (`Success | BufferTooSmall |
  Other(code)`), `Error` and `Result`.
- `bindings.dfy`, module `Bindings`: the native library as an injected oracle.
  `NativeLibrary.answer` is an arbitrary function from (call index, request) to
  the reply. The reply is the status, the new counter values and the bytes
  stored in each supplied buffer. `NativeLibrary.log` records every call.
  `Honest` is the native contract the wrapper relies on: a call never writes
  past the length it was given, and a successful call never reports more than
  that length.
- `keygen.dfy`, module `Keygen`: the negotiation as a state machine
  (`Phase`: `Start -> Probed -> Filled -> Finished`, `Advance`, `Run`,
  `Generation`), the lemmas about it, and the imperative `TryGenKeyPair`.
  `TryGenKeyPair` is written as the Rust function is. It is proved to return
  exactly `Generation`'s result and to make exactly `Generation`'s calls. It is
  instantiated as `TryGenRsaKeyPair` / `TryGenEcKeyPair`, with the panicking
  `GenRsaKeyPair` / `GenEcKeyPair` over them.
- `scenarios.dfy`, module `Scenarios`: a stub library that asks for fixed
  lengths, and generations against it.

The `debug_assert!`s on the written lengths are `assert` statements in
`TryGenKeyPair`. They are proved from the native contract (`Honest`). They are
not a recoverable error path.

## Model

| member | source | states |
|---|---|---|
| `Keys.Join` | src/wrappers/themis/rust/src/keygen.rs:112-114 | a pair can only be joined from two halves of the same family; the pair is valid, of that family, and splits back into exactly the two halves |
| `Buffers.ByteVec.constructor` | src/wrappers/themis/rust/src/keygen.rs:74-75 | a new vector has no allocation and no elements |
| `Buffers.ByteVec.Reserve` | src/wrappers/themis/rust/src/keygen.rs:92-93 | afterwards the capacity is at least the old length plus the requested amount; the contents are kept; memory is added only when it was missing |
| `Buffers.ByteVec.Write` | src/wrappers/themis/rust/src/keygen.rs:96-101 | the native library's store through `as_mut_ptr`: the bytes land at the start of the allocation and never past its end; the rest of the allocation is untouched |
| `Buffers.ByteVec.SetLen` | src/wrappers/themis/rust/src/keygen.rs:108-109 | `set_len` may only be called with a length at most the capacity; afterwards the length is that value |
| `Bindings.NativeLibrary.Generate` | src/wrappers/themis/rust/src/keygen.rs:80-85 | one native call: the call is appended to the log; the status and new counters are the oracle's answer for this index and request; supplied buffers get the answer's bytes; on success each reported length is at most the length passed in |
| `Keygen.Written` | src/wrappers/themis/rust/src/keygen.rs:106-109 | a key's bytes are exactly as many as the fill reported; they are the bytes the library stored and then untouched reserved memory; when the library stored at least that many, they are exactly the first that many stored bytes |
| `Keygen.Advance` | src/wrappers/themis/rust/src/keygen.rs:80-114 | each phase moves strictly forward and makes at most the calls still allowed to it; every call uses the generation's family; a finished phase is an error or a pair of that family |
| `Keygen.Run` | src/wrappers/themis/rust/src/keygen.rs:73-115 | a negotiation makes at most two native calls, all for its own family; it never yields a cross-family pair or a pair of the other family |
| `Keygen.ProbeFailureStops` | src/wrappers/themis/rust/src/keygen.rs:80-89 | a probe status other than "buffer too small", success included, ends the generation with that status's error after exactly one call, so nothing is reserved and no fill call is made |
| `Keygen.FillFailureStops` | src/wrappers/themis/rust/src/keygen.rs:95-105 | after a "buffer too small" probe, the fill call gets exactly the lengths the probe reported; a fill status other than success gives that error after exactly the two calls, and no key is built |
| `Keygen.FillSuccessBuildsPair` | src/wrappers/themis/rust/src/keygen.rs:96-114 | after a "buffer too small" probe and a successful fill, the result is a pair of the family after exactly those two calls; each reported length is at most the probed length; each key has exactly the reported length and the stored bytes |
| `Keygen.GenerationSucceedsIff` | src/wrappers/themis/rust/src/keygen.rs:86-105 | a generation succeeds if and only if the probe reports "buffer too small" and the fill reports success |
| `Keygen.TryGenKeyPair` | src/wrappers/themis/rust/src/keygen.rs:73-115 | the step-by-step negotiation returns exactly `Generation`'s result and appends exactly `Generation`'s calls to the native log; its length asserts hold |
| `Keygen.TryGenRsaKeyPair` | src/wrappers/themis/rust/src/keygen.rs:73-115 | the negotiation for RSA; every call goes to the RSA entry point; a returned pair is RSA on both halves |
| `Keygen.TryGenEcKeyPair` | src/wrappers/themis/rust/src/keygen.rs:133-175 | the negotiation for ECDSA; every call goes to the ECDSA entry point; a returned pair is ECDSA on both halves |
| `Keygen.UnwrapOrPanic` | src/wrappers/themis/rust/src/keygen.rs:66-69 | it returns a pair exactly when the fallible result is `Ok`, and then returns that pair unchanged; an `Err` becomes a panic naming the native function and carrying the error |
| `Keygen.GenRsaKeyPair` | src/wrappers/themis/rust/src/keygen.rs:65-70 | the outcome is `UnwrapOrPanic` of the RSA negotiation, and the native calls are those of that negotiation, nothing else; a returned pair is RSA |
| `Keygen.GenEcKeyPair` | src/wrappers/themis/rust/src/keygen.rs:125-130 | the outcome is `UnwrapOrPanic` of the ECDSA negotiation, and the native calls are those of that negotiation, nothing else; a returned pair is ECDSA |
| `Scenarios.StubGeneration` | src/wrappers/themis/rust/src/keygen.rs:73-115 | against a library that asks for fixed lengths and then fills them, a generation succeeds after two calls with keys of exactly those bytes |
| `Scenarios.RsaScenario` | src/wrappers/themis/rust/src/keygen.rs:73-115 | with a 2048/512 library, the RSA generation yields RSA keys of 2048 and 512 bytes |
| `Scenarios.EcdsaScenario` | src/wrappers/themis/rust/src/keygen.rs:133-175 | with a 96/68 library, the ECDSA generation yields ECDSA keys of 96 and 68 bytes |
| `Scenarios.RsaStubClient` | src/wrappers/themis/rust/src/keygen.rs:73-115 | the imperative RSA generation against the 2048/512 library returns RSA keys of 2048 and 512 bytes |
| `Scenarios.EcdsaStubClient` | src/wrappers/themis/rust/src/keygen.rs:125-130 | the panicking ECDSA entry point against the 96/68 library returns ECDSA keys of 96 and 68 bytes |

## Left out

- Key-generation mathematics and randomness inside the native library. The
  oracle's answers are unconstrained apart from the native contract (`Honest`).
  Nothing is claimed about two generations giving different keys.
- The native status code table and `Error::from_themis_status`. They are not
  part of this model. A status is taken as already classified into `ErrorKind`,
  and `FromThemisStatus` keeps that kind. The error's display text is not modelled.
- The panic message text. `Panicked` records the native function's name and
  the error, not the formatted string.
- A native library that breaks its contract. In Rust that trips the
  `debug_assert!` in debug builds or makes `set_len` unsound in release builds.
  The model assumes the contract and proves that the asserts hold. It does not
  model the abort.
- Raw pointers and uninitialised memory. Passing a buffer is a flag plus a
  `ByteVec` that the library writes at offset 0. Memory added by `reserve`
  reads as zero bytes, so a key whose reported length exceeds the bytes
  actually stored ends in zeros rather than in unspecified memory.
- `Buffers.ByteVec.Reserve`: it allocates exactly the missing room. Rust's
  `Vec::reserve` may allocate more, and that extra room is not modelled. The
  generator relies only on "capacity at least", which both satisfy. Allocation
  failure and `usize` capacity overflow in `reserve` are not modelled either,
  because lengths are unbounded naturals here.
- The internals of the key types of `crate::keys` beyond the family tag and the
  bytes. The typed `RsaKeyPair` / `EcdsaKeyPair` are one `KeyPair` type, and
  the typing rule is `Join`'s precondition. `Split` is included as `Join`'s partner.
- The module's documentation example (lines 31-46), which uses `SecureMessage`.
- `src/soter/openssl/soter_engine.h` and `src/soter/boringssl/soter_rsa_common.h`,
  which only declare structs over OpenSSL/BoringSSL handles. They contain no logic.
- A zero-length key after a successful fill. The wrapper does not reject it, so
  the model allows it too.
- Concurrency. Each generation is a sequential pair of calls on one library object.
