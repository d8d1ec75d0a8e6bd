/** Random strings by rejection sampling: `UniqueNewLenChars`. */
module Uniuri {
  import opened Arithmetic

  type Byte = b: int | 0 <= b < 256

  datatype Outcome = Panic | Text(value: string)

  predicate Legal(chars: string) {
    2 <= |chars| <= 256
  }

  /** Bytes from here on are skipped, to avoid modulo bias. */
  function Limit(chars: string): (r: nat)
    requires Legal(chars)
    ensures 0 < r <= 256
  {
    256 - 256 % |chars|
  }

  lemma LimitIsMultiple(n: nat)
    requires 2 <= n <= 256
    ensures 0 < 256 - 256 % n && 256 - 256 % n == n * (256 / n)
    ensures (256 - 256 % n) % n == 0 && (256 - 256 % n) / n == 256 / n
  {
    DivBounds(256, n);
    assert 256 == n * (256 / n) + 256 % n;
    DivIs(n * (256 / n), n, 256 / n);
  }

  /** What one byte adds to the result. */
  function Symbol(chars: string): Byte -> string
    requires Legal(chars)
  {
    (rb: Byte) => if rb < Limit(chars) then [chars[rb % |chars|]] else []
  }

  /** What the bytes of a stream add up to. */
  function Gather(stream: seq<Byte>, symbol: Byte -> string): string {
    if stream == [] then [] else Gather(stream[..|stream|-1], symbol) + symbol(stream[|stream|-1])
  }

  /** The characters that a stream of random bytes stands for. */
  function Accepted(stream: seq<Byte>, chars: string): string
    requires Legal(chars)
  {
    Gather(stream, Symbol(chars))
  }

  /** Number of bytes asked of the generator at a time. */
  function Chunk(length: nat): nat {
    length + length / 4
  }

  /** How much of a stream of `n` bytes fills whole chunks of `c` bytes. */
  function WholeLength(n: nat, c: nat): (r: nat)
    requires c > 0
    ensures r <= n
  {
    if n < c then 0 else c + WholeLength(n - c, c)
  }

  /** The part of the stream that fills whole chunks. */
  function Whole(stream: seq<Byte>, length: nat): seq<Byte>
    requires length > 0
  {
    stream[..WholeLength(|stream|, Chunk(length))]
  }

  lemma {:induction false} GatherPrefix(stream: seq<Byte>, n: nat, symbol: Byte -> string)
    requires n <= |stream|
    ensures Gather(stream[..n], symbol) <= Gather(stream, symbol)
    decreases |stream|
  {
    if n < |stream| {
      assert stream[..|stream|-1][..n] == stream[..n];
      GatherPrefix(stream[..|stream|-1], n, symbol);
    } else {
      assert stream[..n] == stream;
    }
  }

  /** What a call answers when the generator delivers `stream` and then fails: the first
      `length` characters the stream stands for, wherever the chunk boundaries fall, or a
      panic when its whole chunks do not hold as many. */
  function Drawn(length: nat, chars: string, stream: seq<Byte>): Outcome
    requires length > 0 && Legal(chars)
  {
    GatherPrefix(stream, |Whole(stream, length)|, Symbol(chars));
    if |Accepted(Whole(stream, length), chars)| >= length then Text(Accepted(stream, chars)[..length]) else Panic
  }

  method NewLenChars(length: int, chars: string, stream: seq<Byte>) returns (r: Outcome)
    ensures length == 0 ==> r == Text("")
    ensures length != 0 && (length < 0 || |chars| < 2 || |chars| > 256) ==> r == Panic
    ensures length > 0 && Legal(chars) ==> r == Drawn(length, chars, stream)
  {
    if length == 0 {
      return Text("");
    }
    var clen := |chars|;
    if clen < 2 || clen > 256 {
      return Panic;
    }
    if length < 0 {
      return Panic;
    }
    r := Draw(length, chars, stream);
  }

  /** Reads chunk after chunk until the result is full. */
  method Draw(length: nat, chars: string, stream: seq<Byte>) returns (r: Outcome)
    requires length > 0 && Legal(chars)
    ensures r == Drawn(length, chars, stream)
  {
    hide Drawn, Accepted;
    NothingYet(chars);
    var b := new char[length];
    var random := new Byte[length + length / 4];
    var i := 0;
    var pos := 0;
    assert stream[..0] == [];
    while true
      invariant fresh(b) && fresh(random) && random.Length == Chunk(length)
      invariant 0 <= pos <= |stream|
      invariant pos + WholeLength(|stream| - pos, Chunk(length)) == WholeLength(|stream|, Chunk(length))
      invariant 0 <= i < length && b[..i] == Accepted(stream[..pos], chars)
      decreases |stream| - pos
    {
      if |stream| - pos < random.Length {
        TooFew(stream, length, chars, pos);
        return Panic;
      }
      Read(random, stream, pos);
      var used;
      i, used := Pick(random, b, i, chars, stream[..pos]);
      Extends(stream, pos, used, random[..]);
      if i == length {
        assert b[..] == b[..i];
        r := Text(b[..]);
        Enough(stream, length, chars, pos + used, b[..]);
        return;
      }
      pos := pos + random.Length;
    }
  }

  /** `rand.Read`: the next bytes of the stream. */
  method Read(random: array<Byte>, stream: seq<Byte>, pos: nat)
    requires pos + random.Length <= |stream|
    modifies random
    ensures random[..] == stream[pos..pos + random.Length]
  {
    forall k | 0 <= k < random.Length {
      random[k] := stream[pos + k];
    }
  }

  lemma Extends(stream: seq<Byte>, pos: nat, used: nat, chunk: seq<Byte>)
    requires pos + |chunk| <= |stream| && used <= |chunk| && chunk == stream[pos..pos + |chunk|]
    ensures stream[..pos + used] == stream[..pos] + chunk[..used]
  {
  }

  /** The loop over one chunk: it goes on filling `b` from index `start` and stops when `b`
      is full. */
  method Pick(random: array<Byte>, b: array<char>, start: nat, chars: string, ghost before: seq<Byte>)
    returns (i: nat, used: nat)
    requires Legal(chars) && start < b.Length && b[..start] == Accepted(before, chars)
    modifies b
    ensures i <= b.Length && used <= random.Length && (i < b.Length ==> used == random.Length)
    ensures b[..i] == Accepted(before + random[..][..used], chars)
  {
    i := start;
    used := 0;
    ghost var seen := before;
    while used < random.Length
      invariant 0 <= used <= random.Length && i < b.Length
      invariant seen == before + random[..][..used] && b[..i] == Accepted(seen, chars)
    {
      NextByte(seen, random[used], chars);
      seen := seen + [random[used]];
      i := Put(random[used], b, i, chars);
      used := used + 1;
      assert seen == before + random[..][..used];
      if i == b.Length {
        return;
      }
    }
  }

  method Put(rb: Byte, b: array<char>, i: nat, chars: string) returns (next: nat)
    requires Legal(chars) && i < b.Length
    modifies b
    ensures i <= next <= b.Length && b[..next] == old(b[..i]) + Symbol(chars)(rb)
  {
    var clen := |chars|;
    var maxrb := 255 - 256 % clen;
    var c: int := rb;
    if c > maxrb {
      return i;
    }
    b[i] := chars[c % clen];
    return i + 1;
  }

  lemma NothingYet(chars: string)
    requires Legal(chars)
    ensures Accepted([], chars) == ""
  {
  }

  lemma NextByte(stream: seq<Byte>, next: Byte, chars: string)
    requires Legal(chars)
    ensures Accepted(stream + [next], chars)
            == Accepted(stream, chars) + Symbol(chars)(next)
  {
    assert (stream + [next])[..|stream|] == stream;
  }

  /** What a full buffer holds is the first `length` characters of the stream, and the whole
      chunks of the stream suffice. */
  lemma Enough(stream: seq<Byte>, length: nat, chars: string, n: nat, result: string)
    requires Legal(chars) && length > 0 && n <= |Whole(stream, length)|
    requires result == Accepted(stream[..n], chars) && |result| == length
    ensures Drawn(length, chars, stream) == Text(result)
  {
    PrefixInPart(stream, |Whole(stream, length)|, n, chars);
  }

  lemma TooFew(stream: seq<Byte>, length: nat, chars: string, pos: nat)
    requires Legal(chars) && length > 0 && pos == |Whole(stream, length)| && |Accepted(stream[..pos], chars)| < length
    ensures Drawn(length, chars, stream) == Panic
  {
  }

  lemma PrefixInPart(stream: seq<Byte>, m: nat, n: nat, chars: string)
    requires Legal(chars) && n <= m <= |stream|
    ensures Accepted(stream[..n], chars) <= Accepted(stream[..m], chars)
    ensures Accepted(stream[..n], chars) <= Accepted(stream, chars)
  {
    assert stream[..m][..n] == stream[..n];
    GatherPrefix(stream[..m], n, Symbol(chars));
    GatherPrefix(stream, n, Symbol(chars));
  }

  /** The bytes from 0 on spell the character set. */
  lemma {:induction false} SpellsCharset(chars: string, stream: seq<Byte>)
    requires Legal(chars) && |stream| <= |chars| && forall i :: 0 <= i < |stream| ==> stream[i] == i
    ensures Accepted(stream, chars) == chars[..|stream|]
    decreases |stream|
  {
    if stream != [] {
      hide Symbol;
      var n := |stream| - 1;
      SpellsCharset(chars, stream[..n]);
      SmallByte(chars, stream[n]);
      assert chars[..n] + [chars[n]] == chars[..n + 1];
    }
  }

  lemma SmallByte(chars: string, b: Byte)
    requires Legal(chars) && b < |chars|
    ensures Symbol(chars)(b) == [chars[b]]
  {
    var n := |chars|;
    LimitIsMultiple(n);
    DivBounds(256, n);
    MulMono(1, 256 / n, n);
    DivIs(b, n, 0);
  }

  // ---- Uniformity ----

  function Power(b: nat, n: nat): nat {
    if n == 0 then 1 else b * Power(b, n - 1)
  }

  /** The bytes that stand for one character. */
  function BytesFor(c: char, chars: string): set<Byte>
    requires Legal(chars)
  {
    set b: Byte | 0 <= b < Limit(chars) && chars[b % |chars|] == c
  }

  /** The accepted byte strings that stand for an output string. */
  function StringsFor(out: string, chars: string): set<seq<Byte>>
    requires Legal(chars)
  {
    if out == [] then {[]}
    else
      set b, rest | b in BytesFor(out[|out|-1], chars) && rest in StringsFor(out[..|out|-1], chars) :: rest + [b]
  }

  /** They are exactly the byte strings without a skipped byte from which the output comes. */
  lemma {:induction false} StringsForExact(out: string, chars: string, s: seq<Byte>)
    requires Legal(chars)
    ensures s in StringsFor(out, chars)
            <==> Accepted(s, chars) == out && forall i :: 0 <= i < |s| ==> s[i] < Limit(chars)
    decreases |out|
  {
    if out == [] {
      if s != [] && s[|s|-1] < Limit(chars) {
        assert |Accepted(s, chars)| > 0;
      }
    } else if s != [] {
      var front, last := s[..|s|-1], s[|s|-1];
      StringsForExact(out[..|out|-1], chars, front);
      assert s == front + [last];
      StringsForLast(out, chars, front, last);
      assert last < Limit(chars) ==> Accepted(s, chars) == Accepted(front, chars) + [chars[last % |chars|]];
      if last < Limit(chars) && Accepted(s, chars) == out {
        assert Accepted(front, chars) == out[..|out|-1];
      }
      assert out == out[..|out|-1] + [out[|out|-1]];
    }
  }

  lemma StringsForLast(out: string, chars: string, front: seq<Byte>, last: Byte)
    requires Legal(chars) && out != []
    ensures front + [last] in StringsFor(out, chars)
            <==> front in StringsFor(out[..|out|-1], chars) && last in BytesFor(out[|out|-1], chars)
  {
    if front + [last] in StringsFor(out, chars) {
      var b, rest :| b in BytesFor(out[|out|-1], chars) && rest in StringsFor(out[..|out|-1], chars)
                     && rest + [b] == front + [last];
      assert (rest + [b])[..|rest|] == rest && (front + [last])[..|front|] == front;
      assert (rest + [b])[|rest|] == b && (front + [last])[|front|] == last;
      assert |rest| == |front|;
    }
  }

  /** No character occurs twice. */
  ghost predicate Distinct(chars: string) {
    forall i, j :: 0 <= i < j < |chars| ==> chars[i] != chars[j]
  }

  /** Every output string comes from the same number of accepted byte strings. */
  lemma {:induction false} Uniform(out: string, chars: string)
    requires Legal(chars) && Distinct(chars)
    requires forall c :: c in out ==> c in chars
    ensures |StringsFor(out, chars)| == Power((256 - 256 % |chars|) / |chars|, |out|)
    decreases |out|
  {
    if out != [] {
      var front, c := out[..|out|-1], out[|out|-1];
      Uniform(front, chars);
      BytesForCount(c, chars);
      ProductCount(BytesFor(c, chars), StringsFor(front, chars));
      assert StringsFor(out, chars) == Product(BytesFor(c, chars), StringsFor(front, chars));
    }
  }

  function Product(bs: set<Byte>, rests: set<seq<Byte>>): set<seq<Byte>> {
    set b, rest | b in bs && rest in rests :: rest + [b]
  }

  /** The strings that end in one byte. */
  function Column(b: Byte, rests: set<seq<Byte>>): set<seq<Byte>> {
    set rest | rest in rests :: rest + [b]
  }

  lemma {:induction false} ProductCount(bs: set<Byte>, rests: set<seq<Byte>>)
    ensures |Product(bs, rests)| == |bs| * |rests|
    decreases |bs|
  {
    if |bs| == 0 {
      assert Product(bs, rests) == {};
    } else {
      var b :| b in bs;
      ProductCount(bs - {b}, rests);
      ProductSplit(bs, rests, b);
      MulSucc(|bs - {b}|, |rests|);
    }
  }

  lemma ProductSplit(bs: set<Byte>, rests: set<seq<Byte>>, b: Byte)
    requires b in bs
    ensures |Product(bs, rests)| == |Product(bs - {b}, rests)| + |rests| && |bs| == |bs - {b}| + 1
  {
    ColumnCount(b, rests);
    var column, others := Column(b, rests), Product(bs - {b}, rests);
    assert Product(bs, rests) == column + others;
    forall s | s in column
      ensures s !in others
    {
      assert s[|s|-1] == b;
    }
    assert column * others == {};
  }

  lemma {:induction false} ColumnCount(b: Byte, rests: set<seq<Byte>>)
    ensures |Column(b, rests)| == |rests|
    decreases |rests|
  {
    if rests == {} {
      assert Column(b, rests) == {};
    } else {
      var rest :| rest in rests;
      ColumnCount(b, rests - {rest});
      assert Column(b, rests) == Column(b, rests - {rest}) + {rest + [b]};
      forall r | r in rests - {rest}
        ensures r + [b] != rest + [b]
      {
        assert (r + [b])[..|r|] == r && (rest + [b])[..|rest|] == rest;
      }
    }
  }

  lemma BytesForCount(c: char, chars: string)
    requires Legal(chars) && Distinct(chars) && c in chars
    ensures |BytesFor(c, chars)| == (256 - 256 % |chars|) / |chars|
  {
    var n := |chars|;
    var j :| 0 <= j < n && chars[j] == c;
    LimitIsMultiple(n);
    assert BytesFor(c, chars) == Residues(j, n, 256 / n) by {
      forall b: int
        ensures b in BytesFor(c, chars) <==> b in Residues(j, n, 256 / n)
      {
      }
    }
    ResiduesCount(j, n, 256 / n);
  }

  function Residues(j: nat, n: nat, k: nat): set<nat>
    requires j < n
  {
    set b: nat | b < n * k && b % n == j
  }

  lemma {:induction false} ResiduesCount(j: nat, n: nat, k: nat)
    requires j < n
    ensures |Residues(j, n, k)| == k
  {
    if k == 0 {
      assert Residues(j, n, k) == {};
    } else {
      ResiduesCount(j, n, k - 1);
      LastResidue(j, n, k);
      assert Residues(j, n, k) == Residues(j, n, k - 1) + {n * (k - 1) + j};
    }
  }

  lemma LastResidue(j: nat, n: nat, k: nat)
    requires j < n && k > 0
    ensures forall b :: b in Residues(j, n, k) <==> b in Residues(j, n, k - 1) || b == n * (k - 1) + j
    ensures n * (k - 1) + j !in Residues(j, n, k - 1)
  {
    var m := n * (k - 1);
    assert n * k == m + n;
    assert m >= 0;
    DivIs(m + j, n, k - 1);
    forall b | m <= b < m + n
      ensures b % n == b - m
    {
      DivIs(b, n, k - 1);
    }
  }
}
