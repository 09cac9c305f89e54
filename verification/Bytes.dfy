/** Bytes, host byte order and the network-order conversions both ends of the wire use. */
module Bytes {
  type Byte = x: int | 0 <= x < 0x100
  type Word = x: int | 0 <= x < 0x1_0000

  /** Byte order of the machine a program runs on. */
  datatype Endian = Little | Big

  function Pow256(n: nat): (p: nat)
    ensures p > 0
  {
    if n == 0 then 1 else 256 * Pow256(n - 1)
  }

  /** The n low-order bytes of v, most significant first. */
  function ToBE(v: nat, n: nat): (s: seq<Byte>)
    ensures |s| == n
  {
    if n == 0 then [] else ToBE(v / 256, n - 1) + [v % 256]
  }

  function FromBE(s: seq<Byte>): nat
  {
    if s == [] then 0 else 256 * FromBE(s[..|s| - 1]) + s[|s| - 1]
  }

  function Reverse(s: seq<Byte>): (r: seq<Byte>)
    ensures |r| == |s|
    ensures forall i :: 0 <= i < |s| ==> r[i] == s[|s| - 1 - i]
  {
    if s == [] then [] else Reverse(s[1..]) + [s[0]]
  }

  /** What an n-byte unsigned variable holding v looks like in memory. */
  function Stored(e: Endian, v: nat, n: nat): (s: seq<Byte>)
    ensures |s| == n
  {
    if e.Little? then Reverse(ToBE(v, n)) else ToBE(v, n)
  }

  /** The value of an unsigned variable whose memory is s. */
  function Loaded(e: Endian, s: seq<Byte>): nat
  {
    FromBE(if e.Little? then Reverse(s) else s)
  }

  /** htons, htonl and htonll, and their inverses: bswap on a little-endian host, identity on a big-endian one. */
  function Hton(e: Endian, v: nat, n: nat): nat
  {
    if e.Little? then FromBE(Reverse(ToBE(v, n))) else v
  }

  lemma {:induction false} FromBEBound(s: seq<Byte>)
    ensures FromBE(s) < Pow256(|s|)
  {
    if s != [] {
      FromBEBound(s[..|s| - 1]);
    }
  }

  lemma {:induction false} FromToBE(v: nat, n: nat)
    requires v < Pow256(n)
    ensures FromBE(ToBE(v, n)) == v
  {
    if n > 0 {
      FromToBE(v / 256, n - 1);
      assert ToBE(v, n)[..n - 1] == ToBE(v / 256, n - 1);
    }
  }

  lemma {:induction false} ToFromBE(s: seq<Byte>)
    ensures ToBE(FromBE(s), |s|) == s
  {
    if s != [] {
      ToFromBE(s[..|s| - 1]);
      assert s == s[..|s| - 1] + [s[|s| - 1]];
    }
  }

  lemma ReverseTwice(s: seq<Byte>)
    ensures Reverse(Reverse(s)) == s
  {}

  /** Storing htonX(v) puts v on the wire most significant byte first, whatever the host. */
  lemma StoredHton(e: Endian, v: nat, n: nat)
    requires v < Pow256(n)
    ensures Stored(e, Hton(e, v, n), n) == ToBE(v, n)
  {
    if e.Little? {
      ToFromBE(Reverse(ToBE(v, n)));
      ReverseTwice(ToBE(v, n));
    }
  }

  /** Reading a field and applying ntohX gives the number on the wire, whatever the host. */
  lemma NtohLoaded(e: Endian, s: seq<Byte>)
    ensures Hton(e, Loaded(e, s), |s|) == FromBE(s)
  {
    if e.Little? {
      ToFromBE(Reverse(s));
      ReverseTwice(s);
    }
  }

  /** The 16-bit variable whose memory is the bytes a, b. */
  function Pair(e: Endian, a: Byte, b: Byte): Word
  {
    if e.Little? then a + 256 * b else 256 * a + b
  }

  function Swap(w: Word): Word
  {
    w % 256 * 256 + w / 256
  }

  /** The two-byte cases in closed form. */
  lemma TwoBytes(e: Endian, a: Byte, b: Byte, w: Word)
    ensures FromBE([a, b]) == 256 * a + b
    ensures Loaded(e, [a, b]) == Pair(e, a, b)
    ensures ToBE(w, 2) == [w / 256, w % 256]
    ensures Hton(e, w, 2) == if e.Little? then Swap(w) else w
  {
    assert [a, b][..1] == [a] && [a][..0] == [] && [b, a][..1] == [b] && [b][..0] == [];
    assert FromBE([a]) == a && FromBE([b]) == b;
    assert Reverse([a, b]) == [b, a];
    assert ToBE(w / 256, 1) == ToBE(w / 256 / 256, 0) + [w / 256];
    var s := Reverse(ToBE(w, 2));
    assert s == [w % 256, w / 256];
    assert s[..1] == [w % 256] && FromBE(s[..1]) == w % 256;
  }
}
