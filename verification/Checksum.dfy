/** generate_checksum: the one's-complement Internet checksum with deferred carries. */
module Checksum {
  import opened Bytes

  /** The C int of the accumulator: leaving its range is undefined behaviour, so Dafny checks every addition. */
  newtype int32 = x: int | -0x8000_0000 <= x < 0x8000_0000

  const INT_MAX := 0x7fff_ffff

  /** The 16-bit words of a message; an odd last byte is padded with a zero byte after it. */
  function Words(e: Endian, msg: seq<Byte>): (ws: seq<Word>)
    ensures |ws| == (|msg| + 1) / 2
  {
    if msg == [] then []
    else if |msg| == 1 then [Pair(e, msg[0], 0)]
    else [Pair(e, msg[0], msg[1])] + Words(e, msg[2..])
  }

  function Sum(ws: seq<Word>): nat
  {
    if ws == [] then 0 else ws[0] + Sum(ws[1..])
  }

  /** One's-complement addition: the carry out of bit 15 goes back into bit 0. */
  function AddEndAround(x: Word, y: Word): Word
  {
    if x + y < 0x1_0000 then x + y else x + y - 0xffff
  }

  /** Section 1 of RFC 1071, word by word. */
  function OnesSum(ws: seq<Word>): Word
  {
    if ws == [] then 0 else AddEndAround(ws[0], OnesSum(ws[1..]))
  }

  function InternetChecksum(e: Endian, msg: seq<Byte>): Word
  {
    0xffff - OnesSum(Words(e, msg))
  }

  /** The representative of s modulo 65535 in 1..65535, or 0 for 0. */
  function Residue(s: nat): Word
  {
    if s == 0 then 0 else (s - 1) % 0xffff + 1
  }

  lemma {:induction false} OnesSumIsResidue(ws: seq<Word>)
    ensures OnesSum(ws) == Residue(Sum(ws))
  {
    if ws != [] {
      OnesSumIsResidue(ws[1..]);
    }
  }

  /** The method of the source, with its 32-bit accumulator, is RFC 1071's checksum: added to the sum of the message it
      gives all ones. */
  method GenerateChecksum(e: Endian, msg: seq<Byte>) returns (ck: Word)
    requires Sum(Words(e, msg)) <= INT_MAX
    ensures ck == InternetChecksum(e, msg)
    ensures AddEndAround(ck, OnesSum(Words(e, msg))) == 0xffff
  {
    hide Words, Sum, OnesSum;
    var cksum: int32 := 0;
    var p, msglen := 0, |msg|;
    assert msg[0..] == msg;
    while msglen > 1
      invariant 0 <= p && p + msglen == |msg| && msglen >= 0
      invariant 0 <= cksum
      invariant cksum as int + Sum(Words(e, msg[p..])) == Sum(Words(e, msg))
    {
      NextWord(e, msg, p);
      cksum := cksum + Pair(e, msg[p], msg[p + 1]) as int32;
      p, msglen := p + 2, msglen - 2;
    }
    LastByte(e, msg, p);
    if msglen == 1 {
      var b: int := msg[p];
      cksum := cksum + Hton(e, b * 256, 2) as int32;
    }
    ck := Complement(cksum, Words(e, msg));
  }

  lemma NextWord(e: Endian, msg: seq<Byte>, p: nat)
    requires p + 2 <= |msg|
    ensures Sum(Words(e, msg[p..])) == Pair(e, msg[p], msg[p + 1]) + Sum(Words(e, msg[p + 2..]))
  {
    assert msg[p..][2..] == msg[p + 2..];
    assert Words(e, msg[p..])[1..] == Words(e, msg[p + 2..]);
  }

  /** htons moves the shifted byte to where it lies in memory. */
  lemma LastByte(e: Endian, msg: seq<Byte>, p: nat)
    requires |msg| - 1 <= p <= |msg|
    ensures p == |msg| ==> Sum(Words(e, msg[p..])) == 0
    ensures p < |msg| ==> var b: int := msg[p]; 0 <= b * 256 < 0x1_0000 && Sum(Words(e, msg[p..])) == Hton(e, b * 256, 2)
  {
    if p < |msg| {
      var b: int := msg[p];
      TwoBytes(e, 0, 0, b * 256);
      assert msg[p..] == [msg[p]];
      assert Words(e, msg[p..]) == [Pair(e, msg[p], 0)];
    }
  }

  method Complement(sum: int32, ghost ws: seq<Word>) returns (ck: Word)
    requires sum as int == Sum(ws)
    ensures ck == 0xffff - OnesSum(ws) && AddEndAround(ck, OnesSum(ws)) == 0xffff
  {
    OnesSumIsResidue(ws);
    var cksum := Fold(sum);
    ck := 0xffff - cksum as int % 0x1_0000;
  }

  /** The two folding statements: carries out of the low half are added back, twice. */
  method Fold(sum: int32) returns (cksum: int32)
    requires 0 <= sum
    ensures 0 <= cksum
    ensures cksum as int % 0x1_0000 == Residue(sum as int)
  {
    cksum := sum / 0x1_0000 + sum % 0x1_0000;
    cksum := cksum + cksum / 0x1_0000;
    TwoFoldsSuffice(sum as int);
  }

  /** Two folds of any non-negative int give the end-around-carry value; one does exactly when it does not carry again. */
  lemma TwoFoldsSuffice(s: nat)
    requires s <= INT_MAX
    ensures var once := s / 0x1_0000 + s % 0x1_0000;
            && (once + once / 0x1_0000) % 0x1_0000 == Residue(s)
            && (once % 0x1_0000 == Residue(s) <==> once < 0x1_0000)
  {
    var hi, lo := s / 0x1_0000, s % 0x1_0000;
    var once := hi + lo;
    assert s == 0xffff * hi + once;
    if once == 0 {
    } else if once < 0x1_0000 {
      ResidueShift(once, hi);
    } else {
      assert once / 0x1_0000 == 1;
      ResidueShift(once - 0xffff, hi + 1);
    }
  }

  lemma ResidueShift(r: nat, k: nat)
    requires 1 <= r <= 0xffff
    ensures Residue(r + 0xffff * k) == r
  {
    assert (r - 1 + 0xffff * k) % 0xffff == r - 1;
  }

  /** The longest message whose sum fits whatever its bytes are: the padded last byte is worth 256 times more on a
      big-endian host. */
  function SafeLength(e: Endian): nat
  {
    if e.Little? then 65537 else 65536
  }

  /** The largest sum a message of n bytes can have. */
  function LargestSum(e: Endian, n: nat): nat
  {
    0xffff * (n / 2) + if n % 2 == 0 then 0 else Pair(e, 0xff, 0)
  }

  lemma {:induction false} SumBound(e: Endian, msg: seq<Byte>)
    ensures Sum(Words(e, msg)) <= LargestSum(e, |msg|)
  {
    if |msg| > 1 {
      SumBound(e, msg[2..]);
      assert Words(e, msg)[1..] == Words(e, msg[2..]);
    }
  }

  lemma {:induction false} AllOnesSum(e: Endian, n: nat)
    ensures Sum(Words(e, seq(n, i => 0xff))) == LargestSum(e, n)
  {
    var msg: seq<Byte> := seq(n, i => 0xff);
    if n > 1 {
      AllOnesSum(e, n - 2);
      assert msg[2..] == seq(n - 2, i => 0xff);
      assert Words(e, msg)[1..] == Words(e, msg[2..]);
    }
  }

  /** The accumulator cannot overflow on any message of length n exactly up to SafeLength, which covers every length
      a 16-bit length field can hold. */
  lemma OverflowBound(e: Endian, n: nat)
    ensures (forall msg: seq<Byte> :: |msg| == n ==> Sum(Words(e, msg)) <= INT_MAX) <==> n <= SafeLength(e)
  {
    if n <= SafeLength(e) {
      forall msg: seq<Byte> | |msg| == n
        ensures Sum(Words(e, msg)) <= INT_MAX
      {
        SumBound(e, msg);
      }
    } else {
      var msg: seq<Byte> := seq(n, i => 0xff);
      AllOnesSum(e, n);
      assert |msg| == n && Sum(Words(e, msg)) > INT_MAX;
    }
  }

  /** Two messages get the same checksum exactly when their sums agree modulo 65535 and are both zero or both not. */
  lemma EqualChecksums(e: Endian, a: seq<Byte>, b: seq<Byte>)
    ensures InternetChecksum(e, a) == InternetChecksum(e, b) <==>
            var s, t := Sum(Words(e, a)), Sum(Words(e, b));
            s % 0xffff == t % 0xffff && (s == 0 <==> t == 0)
  {
    var s, t := Sum(Words(e, a)), Sum(Words(e, b));
    OnesSumIsResidue(Words(e, a));
    OnesSumIsResidue(Words(e, b));
    EqualResidues(s, t);
  }

  lemma EqualResidues(s: nat, t: nat)
    ensures Residue(s) == Residue(t) <==> s % 0xffff == t % 0xffff && (s == 0 <==> t == 0)
  {
    ResidueMod(s);
    ResidueMod(t);
  }

  lemma ResidueMod(s: nat)
    ensures s > 0 ==> Residue(s) % 0xffff == s % 0xffff && 1 <= Residue(s) <= 0xffff
  {
    if s > 0 {
      assert s == 0xffff * ((s - 1) / 0xffff) + Residue(s);
    }
  }

  lemma {:induction false} SumConcat(a: seq<Word>, b: seq<Word>)
    ensures Sum(a + b) == Sum(a) + Sum(b)
  {
    if a == [] {
      assert a + b == b;
    } else {
      SumConcat(a[1..], b);
      assert (a + b)[1..] == a[1..] + b;
    }
  }

  lemma SumWithout(b: seq<Word>, i: nat)
    requires i < |b|
    ensures Sum(b) == b[i] + Sum(b[..i] + b[i + 1..])
  {
    SumConcat(b[..i], b[i..]);
    SumConcat(b[..i], b[i + 1..]);
    assert b == b[..i] + b[i..];
    assert b[i..][1..] == b[i + 1..];
  }

  lemma MultisetWithout(b: seq<Word>, i: nat)
    requires i < |b|
    ensures multiset(b) == multiset{b[i]} + multiset(b[..i] + b[i + 1..])
  {
    assert b == b[..i] + ([b[i]] + b[i + 1..]);
  }

  lemma Cancel(w: Word, m: multiset<Word>, n: multiset<Word>)
    requires multiset{w} + m == multiset{w} + n
    ensures m == n
  {
    assert m == (multiset{w} + m) - multiset{w};
    assert n == (multiset{w} + n) - multiset{w};
  }

  lemma {:induction false} SumOfPermutation(a: seq<Word>, b: seq<Word>)
    requires multiset(a) == multiset(b)
    ensures Sum(a) == Sum(b)
  {
    if a == [] {
      assert |b| == |multiset(b)| == 0;
    } else {
      assert a[0] in multiset(b);
      var i :| 0 <= i < |b| && b[i] == a[0];
      var c := b[..i] + b[i + 1..];
      SumWithout(b, i);
      MultisetWithout(b, i);
      assert a == [a[0]] + a[1..];
      Cancel(a[0], multiset(a[1..]), multiset(c));
      SumOfPermutation(a[1..], c);
    }
  }

  /** An odd last byte counts as if a zero byte followed it. */
  lemma {:induction false} PaddedWithZero(e: Endian, msg: seq<Byte>)
    requires |msg| % 2 == 1
    ensures InternetChecksum(e, msg) == InternetChecksum(e, msg + [0])
  {
    PaddedWords(e, msg);
  }

  lemma {:induction false} PaddedWords(e: Endian, msg: seq<Byte>)
    requires |msg| % 2 == 1
    ensures Words(e, msg + [0]) == Words(e, msg)
  {
    if |msg| > 1 {
      assert (msg + [0])[2..] == msg[2..] + [0];
      PaddedWords(e, msg[2..]);
    } else {
      assert Words(e, (msg + [0])[2..]) == [];
    }
  }

  /** Moving 16-bit words about does not change the checksum. */
  lemma PermutedWords(e: Endian, a: seq<Byte>, b: seq<Byte>)
    requires multiset(Words(e, a)) == multiset(Words(e, b))
    ensures InternetChecksum(e, a) == InternetChecksum(e, b)
  {
    OnesSumIsResidue(Words(e, a));
    OnesSumIsResidue(Words(e, b));
    SumOfPermutation(Words(e, a), Words(e, b));
  }

  lemma SwapOf(hi: Byte, lo: Byte)
    ensures Swap(256 * hi + lo) == 256 * lo + hi
  {}

  /** Swapping the bytes of both operands swaps the bytes of an end-around-carry sum: the carry out of either byte goes
      into the other. */
  lemma SwapAddEndAround(x: Word, y: Word)
    ensures AddEndAround(Swap(x), Swap(y)) == Swap(AddEndAround(x, y))
  {
    var a, b, c, d := x / 256, x % 256, y / 256, y % 256;
    SwapOf(a, b);
    SwapOf(c, d);
    SwapBytewise(a, b, c, d);
  }

  lemma SwapBytewise(a: Byte, b: Byte, c: Byte, d: Byte)
    ensures AddEndAround(256 * b + a, 256 * d + c) == Swap(AddEndAround(256 * a + b, 256 * c + d))
  {
    var lo, hi := b + d, a + c;
    if lo == 255 && hi >= 256 {
      SwapOf(hi - 255, 0);
    } else if hi == 255 && lo >= 256 {
      SwapOf(0, lo - 255);
    } else if hi >= 256 {
      if lo >= 256 { SwapOf(hi - 255, lo - 255); } else { SwapOf(hi - 256, lo + 1); }
    } else {
      if lo >= 256 { SwapOf(hi + 1, lo - 256); } else { SwapOf(hi, lo); }
    }
  }

  lemma {:induction false} WordsAreSwapped(msg: seq<Byte>)
    ensures forall i :: 0 <= i < |Words(Little, msg)| ==> Words(Little, msg)[i] == Swap(Words(Big, msg)[i])
  {
    if |msg| > 1 {
      WordsAreSwapped(msg[2..]);
    }
  }

  /** Byte-order independence, section 2(B) of RFC 1071, for odd lengths too: hosts of different byte order compute
      byte-swapped sums of the same bytes. */
  lemma {:induction false} ByteOrderIndependence(msg: seq<Byte>)
    ensures InternetChecksum(Little, msg) == Swap(InternetChecksum(Big, msg))
  {
    WordsAreSwapped(msg);
    SumsAreSwapped(Words(Little, msg), Words(Big, msg));
    SwapFacts(OnesSum(Words(Big, msg)));
  }

  lemma {:induction false} SumsAreSwapped(ws: seq<Word>, vs: seq<Word>)
    requires |ws| == |vs| && forall i :: 0 <= i < |ws| ==> ws[i] == Swap(vs[i])
    ensures OnesSum(ws) == Swap(OnesSum(vs))
  {
    if ws != [] {
      SumsAreSwapped(ws[1..], vs[1..]);
      SwapAddEndAround(vs[0], OnesSum(vs[1..]));
    }
  }

  lemma SwapFacts(w: Word)
    ensures Swap(0xffff - w) == 0xffff - Swap(w)
    ensures Swap(Swap(w)) == w
  {
    var hi, lo := w / 256, w % 256;
    assert w == 256 * hi + lo && 0xffff - w == 256 * (255 - hi) + (255 - lo);
    assert (0xffff - w) / 256 == 255 - hi;
  }

  function SwapPairs(msg: seq<Byte>): (r: seq<Byte>)
    requires |msg| % 2 == 0
    ensures |r| == |msg|
  {
    if msg == [] then [] else [msg[1], msg[0]] + SwapPairs(msg[2..])
  }

  /** Swapping the bytes of every word of a message swaps the bytes of its checksum. */
  lemma {:induction false} SwappedWords(e: Endian, msg: seq<Byte>)
    requires |msg| % 2 == 0
    ensures InternetChecksum(e, SwapPairs(msg)) == Swap(InternetChecksum(e, msg))
  {
    SwapPairsIsOtherOrder(msg);
    ByteOrderIndependence(msg);
    SwapFacts(InternetChecksum(Big, msg));
  }

  lemma {:induction false} SwapPairsIsOtherOrder(msg: seq<Byte>)
    requires |msg| % 2 == 0
    ensures Words(Little, SwapPairs(msg)) == Words(Big, msg)
    ensures Words(Big, SwapPairs(msg)) == Words(Little, msg)
  {
    if msg != [] {
      SwapPairsIsOtherOrder(msg[2..]);
      assert SwapPairs(msg)[2..] == SwapPairs(msg[2..]);
    }
  }
}
