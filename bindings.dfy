/** The native key-generation entry points `themis_gen_rsa_key_pair` and
    `themis_gen_ec_key_pair`, seen from the wrapper. Their arithmetic and
    randomness are not modelled: what a call returns is whatever `answer`
    gives for the call's index and its request, constrained only by the
    contract the wrapper relies on (`Honest`). */
module Bindings {
  import opened Buffers
  import opened Keys
  import opened Errors

  /** One call: the family selects the entry point; a `false` buffer flag is a
      null pointer; the lengths are the values of the in/out length counters
      on entry. */
  datatype Request = Request(family: Family,
                             privateOut: bool, privateLen: nat,
                             publicOut: bool, publicLen: nat)

  /** What one call produces: the status, the values left in the two length
      counters, and the bytes stored at the start of each supplied buffer. */
  datatype Reply = Reply(status: ErrorKind,
                         privateLen: nat, publicLen: nat,
                         privateBytes: seq<byte>, publicBytes: seq<byte>)

  /** The native contract for one call: it never writes past the length it was
      given for a buffer, and a successful call never reports more than that. */
  predicate Honours(q: Request, r: Reply) {
    (q.privateOut ==>
       |r.privateBytes| <= q.privateLen && (r.status == Success ==> r.privateLen <= q.privateLen)) &&
    (q.publicOut ==>
       |r.publicBytes| <= q.publicLen && (r.status == Success ==> r.publicLen <= q.publicLen))
  }

  ghost predicate Honest(answer: (nat, Request) -> Reply) {
    forall k: nat, q: Request :: Honours(q, answer(k, q))
  }

  class NativeLibrary {
    /** The reply to the call with a given index and request. */
    var answer: (nat, Request) -> Reply
    /** Every call made so far, oldest first. */
    var log: seq<Request>

    ghost predicate Valid()
      reads this
    {
      Honest(answer)
    }

    constructor (answer: (nat, Request) -> Reply)
      requires Honest(answer)
      ensures Valid()
      ensures this.answer == answer && log == []
    {
      this.answer := answer;
      log := [];
    }

    /** One call of the native entry point for `family`. A null buffer is not
        written; a supplied one receives the reply's bytes at its start. The
        returned lengths are the new values of the two length counters. */
    method Generate(family: Family,
                    privateOut: ByteVec?, privateLen: nat,
                    publicOut: ByteVec?, publicLen: nat)
      returns (status: ErrorKind, privateLenOut: nat, publicLenOut: nat)
      requires Valid()
      requires privateOut != null ==> privateOut.Valid() && privateLen <= privateOut.Capacity()
      requires publicOut != null ==> publicOut.Valid() && publicLen <= publicOut.Capacity()
      requires privateOut != null && publicOut != null ==> privateOut != publicOut
      modifies this`log, privateOut, publicOut
      ensures var q := Request(family, privateOut != null, privateLen, publicOut != null, publicLen);
              var r := answer(|old(log)|, q);
              && log == old(log) + [q]
              && status == r.status && privateLenOut == r.privateLen && publicLenOut == r.publicLen
              && (privateOut != null ==>
                    privateOut.Valid() && privateOut.len == old(privateOut.len) &&
                    privateOut.mem == Overwrite(old(privateOut.mem), r.privateBytes))
              && (publicOut != null ==>
                    publicOut.Valid() && publicOut.len == old(publicOut.len) &&
                    publicOut.mem == Overwrite(old(publicOut.mem), r.publicBytes))
      ensures status == Success && privateOut != null ==> privateLenOut <= privateLen
      ensures status == Success && publicOut != null ==> publicLenOut <= publicLen
    {
      var q := Request(family, privateOut != null, privateLen, publicOut != null, publicLen);
      var r := answer(|log|, q);
      assert Honours(q, r);
      if privateOut != null {
        privateOut.Write(r.privateBytes);
      }
      if publicOut != null {
        publicOut.Write(r.publicBytes);
      }
      log := log + [q];
      status, privateLenOut, publicLenOut := r.status, r.privateLen, r.publicLen;
    }
  }
}
