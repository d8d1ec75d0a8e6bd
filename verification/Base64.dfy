/** base64url with padding, section 5 of RFC 4648. */
module Base64 {
  import opened Common
  import opened Bytes

  const PAD: bv8 := 61

  /** The character of a 6-bit value: letters, digits, `-` and `_`. */
  function Digit(n: bv8): (r: bv8)
    requires n < 64
    ensures r != PAD && Value(r) == Some(n)
  {
    if n < 26 then 65 + n
    else if n < 52 then 97 + (n - 26)
    else if n < 62 then 48 + (n - 52)
    else if n == 62 then 45
    else 95
  }

  function Value(c: bv8): (r: Option<bv8>)
    ensures r.Some? ==> r.value < 64
  {
    if 65 <= c <= 90 then Some(c - 65)
    else if 97 <= c <= 122 then Some(c - 97 + 26)
    else if 48 <= c <= 57 then Some(c - 48 + 52)
    else if c == 45 then Some(62)
    else if c == 95 then Some(63)
    else None
  }

  // The four 6-bit values of three bytes, and back.

  function Six1(x: bv8): (r: bv8) ensures r < 64 { x >> 2 }

  function Six2(x: bv8, y: bv8): (r: bv8) ensures r < 64 { ((x & 3) << 4) | (y >> 4) }

  function Six3(y: bv8, z: bv8): (r: bv8) ensures r < 64 { ((y & 15) << 2) | (z >> 6) }

  function Six4(z: bv8): (r: bv8) ensures r < 64 { z & 63 }

  function Byte1(p: bv8, q: bv8): bv8 { (p << 2) | (q >> 4) }

  function Byte2(q: bv8, r: bv8): bv8 { (q << 4) | (r >> 2) }

  function Byte3(r: bv8, s: bv8): bv8 { (r << 6) | s }

  lemma Regroup(x: bv8, y: bv8, z: bv8)
    ensures Byte1(Six1(x), Six2(x, y)) == x
    ensures Byte2(Six2(x, y), Six3(y, z)) == y
    ensures Byte3(Six3(y, z), Six4(z)) == z
  {
  }

  function Encode(b: Text): Text {
    if b == [] then []
    else if |b| == 1 then [Digit(Six1(b[0])), Digit(Six2(b[0], 0)), PAD, PAD]
    else if |b| == 2 then [Digit(Six1(b[0])), Digit(Six2(b[0], b[1])), Digit(Six3(b[1], 0)), PAD]
    else Quad(b[0], b[1], b[2]) + Encode(b[3..])
  }

  function Quad(x: bv8, y: bv8, z: bv8): (r: Text)
    ensures |r| == 4
  {
    [Digit(Six1(x)), Digit(Six2(x, y)), Digit(Six3(y, z)), Digit(Six4(z))]
  }

  /** The test vectors of section 10 of RFC 4648 for "f", "fo" and "foo", and one that needs
      the two characters of the URL alphabet. */
  lemma KnownAnswers()
    ensures Encode([0x66]) == [0x5a, 0x67, 0x3d, 0x3d]
    ensures Encode([0x66, 0x6f]) == [0x5a, 0x6d, 0x38, 0x3d]
    ensures Encode([0x66, 0x6f, 0x6f]) == [0x5a, 0x6d, 0x39, 0x76]
    ensures Encode([0xfb, 0xef, 0xff]) == [0x2d, 0x2d, 0x5f, 0x5f]
  {
    assert [0x66 as bv8, 0x6f, 0x6f][3..] == [] && [0xfb as bv8, 0xef, 0xff][3..] == [];
  }

  /** What a group of four characters stands for: one to three bytes, or None when it is no
      encoding. Padding may only close the last group. */
  function Group(s: Text, last: bool): Option<Text>
    requires |s| == 4
  {
    var p, q, r, t := Value(s[0]), Value(s[1]), Value(s[2]), Value(s[3]);
    if p == None || q == None then None
    else if s[2] == PAD && s[3] == PAD && last then Some([Byte1(p.value, q.value)])
    else if r == None then None
    else if s[3] == PAD && last then Some([Byte1(p.value, q.value), Byte2(q.value, r.value)])
    else if t == None then None
    else Some([Byte1(p.value, q.value), Byte2(q.value, r.value), Byte3(r.value, t.value)])
  }

  /** None when the text is not an encoding. */
  function Decode(s: Text): Option<Text> {
    if s == [] then Some([])
    else if |s| < 4 then None
    else
      match (Group(s[..4], |s| == 4), Decode(s[4..]))
      case (Some(bytes), Some(rest)) => Some(bytes + rest)
      case _ => None
  }

  lemma GroupOfThree(x: bv8, y: bv8, z: bv8, last: bool)
    ensures Group(Quad(x, y, z), last) == Some([x, y, z])
  {
    Regroup(x, y, z);
  }

  lemma GroupOfTwo(x: bv8, y: bv8)
    ensures Group([Digit(Six1(x)), Digit(Six2(x, y)), Digit(Six3(y, 0)), PAD], true) == Some([x, y])
  {
    Regroup(x, y, 0);
  }

  lemma GroupOfOne(x: bv8)
    ensures Group([Digit(Six1(x)), Digit(Six2(x, 0)), PAD, PAD], true) == Some([x])
  {
    Regroup(x, 0, 0);
  }

  /** Decoding undoes encoding, for every byte string. */
  lemma {:induction false} DecodeEncode(b: Text)
    ensures Decode(Encode(b)) == Some(b)
  {
    var s := Encode(b);
    if |b| >= 3 {
      DecodeEncode(b[3..]);
      GroupOfThree(b[0], b[1], b[2], |s| == 4);
      assert s[..4] == Quad(b[0], b[1], b[2]) && s[4..] == Encode(b[3..]);
      assert b == [b[0], b[1], b[2]] + b[3..];
    } else if |b| == 2 {
      GroupOfTwo(b[0], b[1]);
      assert s[..4] == s && s[4..] == [] && b == [b[0], b[1]] + [];
    } else if |b| == 1 {
      GroupOfOne(b[0]);
      assert s[..4] == s && s[4..] == [] && b == [b[0]] + [];
    }
  }
}
