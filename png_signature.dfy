/**
  The file-signature test applied to an app's logo: a PNG datastream begins
  with the eight bytes 89 50 4E 47 0D 0A 1A 0A (section 5.2 of the PNG
  specification, ISO/IEC 15948). Only those leading bytes are examined; no
  chunk is parsed.
 */
module PngSignature {

  /** The eight-byte PNG file signature. */
  const Signature: seq<bv8> := [0x89, 0x50, 0x4E, 0x47, 0x0D, 0x0A, 0x1A, 0x0A]

  /** The logo check: at least eight bytes, and the first eight are the signature. */
  predicate HasSignature(buffer: seq<bv8>)
  {
    |buffer| >= 8 && buffer[..8] == Signature
  }

  /** A file shorter than the signature is always rejected. */
  lemma ShortBufferRejected(buffer: seq<bv8>)
    requires |buffer| < 8
    ensures !HasSignature(buffer)
  {
  }

  /** The check accepts exactly the buffers whose bytes 0..7 match the signature one by one. */
  lemma HasSignatureBytewise(buffer: seq<bv8>)
    ensures HasSignature(buffer) <==>
      |buffer| >= 8 && forall i :: 0 <= i < 8 ==> buffer[i] == Signature[i]
  {
  }

  /** Accepted buffers are exactly the signature followed by arbitrary bytes. */
  lemma HasSignatureIffPrefixed(buffer: seq<bv8>)
    ensures HasSignature(buffer) <==> exists rest :: buffer == Signature + rest
  {
    if HasSignature(buffer) {
      assert buffer == Signature + buffer[8..];
    }
    if exists rest :: buffer == Signature + rest {
      var rest :| buffer == Signature + rest;
      assert buffer[..8] == Signature;
    }
  }
}
