/** Byte strings; a Go string is one. */
module Bytes {

  type Text = seq<bv8>

  /** The exclusive or of a text with the bytes of a key stream that is at least as long. */
  function Xor(a: Text, b: Text): (r: Text)
    requires |a| <= |b|
    ensures |r| == |a|
    ensures forall i :: 0 <= i < |a| ==> r[i] == a[i] ^ b[i]
  {
    seq(|a|, (i: int) requires 0 <= i < |a| => a[i] ^ b[i])
  }

  lemma XorTwice(a: Text, b: Text)
    requires |a| <= |b|
    ensures Xor(Xor(a, b), b) == a
  {
    forall i | 0 <= i < |a|
      ensures (a[i] ^ b[i]) ^ b[i] == a[i]
    {
      XorByteTwice(a[i], b[i]);
    }
  }

  lemma XorByteTwice(a: bv8, b: bv8)
    ensures (a ^ b) ^ b == a
  {
  }
}
