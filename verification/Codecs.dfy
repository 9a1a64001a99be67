/**
 The contract under which the repository uses its encryption library.

 A codec is driven by an io.Copy loop.  After reading the bytes p it has handed `emitted(p)` to its
 destination, so the output depends on the bytes read and not on how they were chunked; at end of
 input it hands over whatever is missing from `final(p)`, or fails when p has no complete output.
 An encryptor is a codec that never fails at end of input.
 */
module Codecs {
  import opened Base

  datatype Codec = Codec(emitted: Bytes -> Bytes, final: Bytes -> Option<Bytes>) {

    ghost predicate Valid() {
      && (forall p: Bytes, q: Bytes :: p <= q ==> emitted(p) <= emitted(q))
      && (forall p: Bytes, q: Bytes :: p <= q && final(q).Some? ==> emitted(p) <= final(q).value)
    }

    ghost predicate Total() {
      forall p: Bytes :: final(p).Some?
    }
  }

  /** dec undoes enc: decryption with a matching key. */
  ghost predicate Inverse(enc: Codec, dec: Codec) {
    forall p: Bytes :: enc.final(p).Some? ==> dec.final(enc.final(p).value) == Some(p)
  }
}
