/** `Cipher` and `Decipher`: secrets in CFB mode (section 6.3 of NIST SP 800-38A) and
    base64url. The block function is any function on 16-byte blocks. */
module Cipher {
  import opened Common
  import opened Bytes
  import Base64

  type Block = b: Text | |b| == 16 witness [0, 0, 0, 0, 0, 0, 0, 0, 0, 0, 0, 0, 0, 0, 0, 0]

  // ---- The mode ----

  function Encrypt(e: Block -> Block, iv: Block, plain: Text): (c: Text)
    ensures |c| == |plain|
    decreases |plain|
  {
    if |plain| <= 16 then Xor(plain, e(iv))
    else
      var c := Xor(plain[..16], e(iv));
      c + Encrypt(e, c, plain[16..])
  }

  function Decrypt(e: Block -> Block, iv: Block, c: Text): (plain: Text)
    ensures |plain| == |c|
    decreases |c|
  {
    if |c| <= 16 then Xor(c, e(iv))
    else Xor(c[..16], e(iv)) + Decrypt(e, c[..16], c[16..])
  }

  lemma {:induction false} DecryptEncrypt(e: Block -> Block, iv: Block, plain: Text)
    ensures Decrypt(e, iv, Encrypt(e, iv, plain)) == plain
    decreases |plain|
  {
    if |plain| <= 16 {
      XorTwice(plain, e(iv));
    } else {
      var c := Xor(plain[..16], e(iv));
      XorTwice(plain[..16], e(iv));
      DecryptEncrypt(e, c, plain[16..]);
      var whole := Encrypt(e, iv, plain);
      assert whole[..16] == c && whole[16..] == Encrypt(e, c, plain[16..]);
      assert plain == plain[..16] + plain[16..];
    }
  }

  /** The block that ciphertext block `j` is chained to: the initial vector, or the block
      before it. */
  function Previous(iv: Block, c: Text, j: nat): Block
    requires 16 * j <= |c|
  {
    if j == 0 then iv else c[16 * j - 16..16 * j]
  }

  /** The equations of section 6.3 of NIST SP 800-38A, block by block: every ciphertext block
      is the plaintext block XORed with the enciphered previous ciphertext block, of which a
      last, partial block uses the leading bytes. */
  lemma {:induction false} CfbBlocks(e: Block -> Block, iv: Block, plain: Text, j: nat)
    requires 16 * j < |plain|
    ensures var c, end := Encrypt(e, iv, plain), BlockEnd(plain, j);
            c[16 * j..end] == Xor(plain[16 * j..end], e(Previous(iv, c, j)))
    decreases |plain|
  {
    hide Encrypt, Xor;
    if j > 0 {
      var first := Xor(plain[..16], e(iv));
      CfbBlocks(e, first, plain[16..], j - 1);
      LongText(e, iv, plain);
      Shifted(iv, first, Encrypt(e, first, plain[16..]), plain, j);
    } else {
      FirstBlock(e, iv, plain);
    }
  }

  /** Where block `j` of a text ends. */
  function BlockEnd(text: Text, j: nat): (end: nat)
    requires 16 * j < |text|
    ensures 16 * j < end <= |text| && end <= 16 * j + 16
  {
    if 16 * j + 16 <= |text| then 16 * j + 16 else |text|
  }

  lemma LongText(e: Block -> Block, iv: Block, plain: Text)
    requires |plain| > 16
    ensures Encrypt(e, iv, plain) == Xor(plain[..16], e(iv)) + Encrypt(e, Xor(plain[..16], e(iv)), plain[16..])
  {
  }

  lemma FirstBlock(e: Block -> Block, iv: Block, plain: Text)
    requires plain != []
    ensures Encrypt(e, iv, plain)[..BlockEnd(plain, 0)] == Xor(plain[..BlockEnd(plain, 0)], e(iv))
  {
    if |plain| <= 16 {
      assert plain[..|plain|] == plain;
    }
  }

  /** The blocks of the rest are the later blocks of the whole. */
  lemma Shifted(iv: Block, first: Block, rest: Text, plain: Text, j: nat)
    requires j > 0 && 16 * j < |plain| && |rest| == |plain| - 16
    ensures var c, end := first + rest, BlockEnd(plain, j);
            && BlockEnd(plain[16..], j - 1) == end - 16
            && c[16 * j..end] == rest[16 * (j - 1)..end - 16]
            && plain[16 * j..end] == plain[16..][16 * (j - 1)..end - 16]
            && Previous(iv, c, j) == Previous(first, rest, j - 1)
  {
    var c := first + rest;
    if j == 1 {
      assert c[0..16] == first;
    } else {
      assert c[16 * j - 16..16 * j] == rest[16 * (j - 1) - 16..16 * (j - 1)];
    }
  }

  // ---- The stream, in place ----

  function Min(a: nat, b: nat): nat {
    if a < b then a else b
  }

  /** The block that the next one is chained to: a full block of ciphertext, or the old one
      when the text ends. */
  function Chain(iv: Block, c: Text): Block {
    if |c| == 16 then c else iv
  }

  lemma EncryptStep(e: Block -> Block, iv: Block, plain: Text, n: nat)
    requires n == Min(16, |plain|) > 0
    ensures var c := Xor(plain[..n], e(iv));
            Encrypt(e, iv, plain) == c + Encrypt(e, Chain(iv, c), plain[n..])
  {
    if |plain| <= 16 {
      assert plain[..n] == plain && plain[n..] == [];
    }
  }

  lemma DecryptStep(e: Block -> Block, iv: Block, c: Text, n: nat)
    requires n == Min(16, |c|) > 0
    ensures Decrypt(e, iv, c) == Xor(c[..n], e(iv)) + Decrypt(e, Chain(iv, c[..n]), c[n..])
  {
    if |c| <= 16 {
      assert c[..n] == c && c[n..] == [];
    }
  }

  /** XORs the `n` bytes of `buf` after `before` with `out`. */
  method XorBytes(buf: array<bv8>, ghost before: Text, ghost rest: Text, at: nat, n: nat, out: Block)
    requires buf[..] == before + rest && |before| == at && n == Min(16, |rest|)
    modifies buf
    ensures buf[..] == before + Xor(rest[..n], out) + rest[n..]
  {
    var k := 0;
    while k < n
      invariant 0 <= k <= n
      invariant forall j :: 0 <= j < buf.Length && !(at <= j < at + k) ==> buf[j] == (before + rest)[j]
      invariant forall j :: 0 <= j < k ==> buf[at + j] == rest[j] ^ out[j]
    {
      assert buf[at + k] == rest[k];
      buf[at + k] := buf[at + k] ^ out[k];
      k := k + 1;
    }
  }

  /** One block of `rest`. Encryption chains what it wrote, decryption what it read. */
  method XorBlock(e: Block -> Block, next: Block, buf: array<bv8>, ghost before: Text, ghost rest: Text, at: nat, n: nat, decrypt: bool)
    returns (chain: Block)
    requires buf[..] == before + rest && |before| == at && n == Min(16, |rest|)
    modifies buf
    ensures buf[..] == before + Xor(rest[..n], e(next)) + rest[n..]
    ensures chain == Chain(next, if decrypt then rest[..n] else Xor(rest[..n], e(next)))
  {
    chain := next;
    assert buf[at..at + n] == (before + rest)[at..at + n] == rest[..n];
    if decrypt && n == 16 {
      chain := buf[at..at + n];
    }
    XorBytes(buf, before, rest, at, n, e(next));
    ghost var block := Xor(rest[..n], e(next));
    assert buf[at..at + n] == (before + block + rest[n..])[at..at + n] == block;
    if !decrypt && n == 16 {
      chain := buf[at..at + n];
    }
  }

  /** What decryption or encryption makes of a text. */
  function Stream(e: Block -> Block, iv: Block, text: Text, decrypt: bool): (r: Text)
    ensures |r| == |text|
  {
    if decrypt then Decrypt(e, iv, text) else Encrypt(e, iv, text)
  }

  lemma StreamStep(e: Block -> Block, iv: Block, text: Text, decrypt: bool, n: nat)
    requires n == Min(16, |text|) > 0
    ensures var c := Xor(text[..n], e(iv));
            Stream(e, iv, text, decrypt) == c + Stream(e, Chain(iv, if decrypt then text[..n] else c), text[n..], decrypt)
  {
    EncryptStep(e, iv, text, n);
    DecryptStep(e, iv, text, n);
  }

  /** The key stream over the bytes of `buf` from `from` on, in place. */
  method XorKeyStream(e: Block -> Block, iv: Block, buf: array<bv8>, from: nat, decrypt: bool)
    requires from <= buf.Length
    modifies buf
    ensures buf[..from] == old(buf[..from])
    ensures buf[from..] == Stream(e, iv, old(buf[from..]), decrypt)
  {
    hide Xor, Chain;
    var next := iv;
    var at := from;
    ghost var head, text := buf[..from], buf[from..];
    ghost var before, rest := head, text;
    while at < buf.Length
      invariant |before| == at && |rest| == buf.Length - at && buf[..] == before + rest
      invariant head + Stream(e, iv, text, decrypt) == before + Stream(e, next, rest, decrypt)
      decreases buf.Length - at
    {
      var n := Min(16, buf.Length - at);
      StreamStep(e, next, rest, decrypt, n);
      ghost var block := Xor(rest[..n], e(next));
      next := XorBlock(e, next, buf, before, rest, at, n, decrypt);
      assert before + (block + Stream(e, next, rest[n..], decrypt)) == (before + block) + Stream(e, next, rest[n..], decrypt);
      before, rest := before + block, rest[n..];
      at := at + n;
    }
    assert buf[..] == before;
    Parts(buf[..], head, Stream(e, iv, text, decrypt));
  }

  lemma Parts(whole: Text, head: Text, tail: Text)
    requires whole == head + tail
    ensures whole[..|head|] == head && whole[|head|..] == tail
  {
  }

  // ---- The two operations ----

  /** What `Cipher` answers for one text; `iv` is None when the random source fails. */
  function CipherOf(e: Block -> Block, text: Text, iv: Option<Block>): Text {
    if text == [] || iv == None then [] else Base64.Encode(iv.value + Encrypt(e, iv.value, text))
  }

  datatype Plain = Bytes(text: Text) | Undecodable | Panic

  /** What `Decipher` answers: a text without room for the initial vector makes it panic. */
  function DecipherOf(e: Block -> Block, crypto: Text): Plain {
    match Base64.Decode(crypto)
    case None => Undecodable
    case Some(bytes) => if |bytes| < 16 then Panic else Bytes(Decrypt(e, bytes[..16], bytes[16..]))
  }

  /** Every secret comes back, under every key and initial vector. */
  lemma DecipherCipher(e: Block -> Block, text: Text, iv: Block)
    requires text != []
    ensures DecipherOf(e, CipherOf(e, text, Some(iv))) == Bytes(text)
  {
    var bytes := iv + Encrypt(e, iv, text);
    Base64.DecodeEncode(bytes);
    DecryptEncrypt(e, iv, text);
    Parts(bytes, iv, Encrypt(e, iv, text));
  }

  method Cipher(e: Block -> Block, text: Text, iv: Option<Block>) returns (r: Text)
    ensures r == CipherOf(e, text, iv)
  {
    if text == [] {
      return [];
    }
    var ciphertext := new bv8[16 + |text|];
    if iv == None {
      return [];
    }
    forall k | 0 <= k < 16 + |text| {
      ciphertext[k] := if k < 16 then iv.value[k] else text[k - 16];
    }
    Parts(ciphertext[..], iv.value, text);
    XorKeyStream(e, iv.value, ciphertext, 16, false);
    assert ciphertext[..] == ciphertext[..16] + ciphertext[16..];
    r := Base64.Encode(ciphertext[..]);
  }

  method Decipher(e: Block -> Block, crypto: Text) returns (r: Plain)
    ensures r == DecipherOf(e, crypto)
  {
    var decoded := Base64.Decode(crypto);
    if decoded == None {
      return Undecodable;
    }
    var bytes := decoded.value;
    if |bytes| < 16 {
      return Panic;
    }
    var ciphertext := new bv8[|bytes|](i requires 0 <= i < |bytes| => bytes[i]);
    assert ciphertext[..] == bytes;
    Parts(ciphertext[..], bytes[..16], bytes[16..]);
    var iv: Block := ciphertext[..16];
    XorKeyStream(e, iv, ciphertext, 16, true);
    r := Bytes(ciphertext[16..]);
  }
}
