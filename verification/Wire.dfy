/** Message framing between the simulator and its nodes: header layout, checksum field, and the reader at each end. */
module Wire {
  import opened Bytes
  import opened Checksum

  const HDR_SIZE := 18
  const REG_CON_SIZE := 82
  /** Size of a data indication in front of its frame: the header and the fixed fields up to rssi. */
  const DATA_IND_SIZE := 34
  const PSDU_LEN_OFFSET := 26
  const RSSI_OFFSET := 33
  const INTERFACE_VERSION := 1
  const MSG_TYPE_REG_REQ := 0
  const MSG_TYPE_REG_CON := 1
  const MSG_TYPE_DEREG_REQ := 2
  const MSG_TYPE_DEREG_CON := 3
  const MSG_TYPE_CCA_REQ := 4
  const MSG_TYPE_CCA_CON := 5
  const MSG_TYPE_TX_DATA_IND := 6
  const MSG_TYPE_TX_DONE_IND := 7
  const TWO64 := 0x1_0000_0000_0000_0000

  /** How a C++ call can fail to return: an exception, a failed assert, or behaviour the language does not define. */
  datatype Fault = Sound | Thrown | AssertFailed | Undefined

  /** struct netsim_pkt_hdr, with the values its fields hold on the host. */
  datatype PktHdr = PktHdr(len: Word, msgType: Word, version: nat, nodeId: nat, cksum: Word)

  function Image(e: Endian, h: PktHdr): (s: seq<Byte>)
    ensures |s| == HDR_SIZE
  {
    Stored(e, h.len, 2) + Stored(e, h.msgType, 2) + Stored(e, h.version, 4) + Stored(e, h.nodeId, 8) + Stored(e, h.cksum, 2)
  }

  /** The header as it is on the wire. */
  function Header(len: nat, msgType: nat, id: nat, cksum: nat): (s: seq<Byte>)
    ensures |s| == HDR_SIZE
  {
    ToBE(len, 2) + ToBE(msgType, 2) + ToBE(INTERFACE_VERSION, 4) + ToBE(id, 8) + ToBE(cksum, 2)
  }

  /** A message with its checksum field zeroed. */
  function Blanked(msg: seq<Byte>): (r: seq<Byte>)
    requires |msg| >= HDR_SIZE
    ensures |r| == |msg|
  {
    msg[..16] + [0, 0] + msg[18..]
  }

  /** A message after the checksum of its current bytes has been stored in its checksum field. */
  function Sealed(e: Endian, msg: seq<Byte>): (r: seq<Byte>)
    requires |msg| >= HDR_SIZE
    ensures |r| == |msg|
  {
    msg[..16] + ToBE(InternetChecksum(e, msg), 2) + msg[18..]
  }

  /** The receiver's test: zero the field, recompute, compare. */
  predicate Passes(e: Endian, msg: seq<Byte>)
    requires |msg| >= HDR_SIZE
  {
    FromBE(msg[16..18]) == InternetChecksum(e, Blanked(msg))
  }

  /** A message of the given type as its sender puts it on the wire; the length field has 16 bits. */
  function Frame(e: Endian, msgType: nat, id: nat, body: seq<Byte>): (msg: seq<Byte>)
    ensures |msg| == HDR_SIZE + |body|
  {
    Sealed(e, Header((HDR_SIZE + |body|) % 0x1_0000, msgType, id, 0) + body)
  }

  // The checksum field

  lemma {:induction false} WordsConcat(e: Endian, a: seq<Byte>, b: seq<Byte>)
    requires |a| % 2 == 0
    ensures Words(e, a + b) == Words(e, a) + Words(e, b)
  {
    if a == [] {
      assert a + b == b;
    } else {
      var ab := a + b;
      assert ab[2..] == a[2..] + b && ab[0] == a[0] && ab[1] == a[1];
      WordsConcat(e, a[2..], b);
      var w := [Pair(e, a[0], a[1])];
      assert Words(e, ab) == w + Words(e, ab[2..]);
      assert Words(e, a) == w + Words(e, a[2..]);
    }
  }

  /** The checksum field contributes its own word to the sum. */
  lemma FieldSum(e: Endian, msg: seq<Byte>)
    requires |msg| >= HDR_SIZE
    ensures Sum(Words(e, msg)) == Sum(Words(e, Blanked(msg))) + Pair(e, msg[16], msg[17])
  {
    SplitSum(e, msg[..16], msg[16], msg[17], msg[18..]);
    SplitSum(e, msg[..16], 0, 0, msg[18..]);
    assert msg == msg[..16] + [msg[16], msg[17]] + msg[18..];
  }

  lemma SplitSum(e: Endian, a: seq<Byte>, b: Byte, c: Byte, d: seq<Byte>)
    requires |a| % 2 == 0
    ensures Sum(Words(e, a + [b, c] + d)) == Sum(Words(e, a)) + Pair(e, b, c) + Sum(Words(e, d))
  {
    WordsConcat(e, a + [b, c], d);
    WordsConcat(e, a, [b, c]);
    SumConcat(Words(e, a + [b, c]), Words(e, d));
    SumConcat(Words(e, a), Words(e, [b, c]));
    assert Words(e, [b, c]) == [Pair(e, b, c)];
  }

  lemma SealedShape(e: Endian, msg: seq<Byte>)
    requires |msg| >= HDR_SIZE
    ensures FromBE(Sealed(e, msg)[16..18]) == InternetChecksum(e, msg)
    ensures Blanked(Sealed(e, msg)) == Blanked(msg)
    ensures forall i :: 0 <= i < |msg| && i != 16 && i != 17 ==> Sealed(e, msg)[i] == msg[i]
  {
    var ck := ToBE(InternetChecksum(e, msg), 2);
    FieldReplaced(msg, ck);
    assert Pow256(2) == 256 * Pow256(1) && Pow256(1) == 256 * Pow256(0);
    FromToBE(InternetChecksum(e, msg), 2);
  }

  lemma FieldReplaced(msg: seq<Byte>, ck: seq<Byte>)
    requires |msg| >= HDR_SIZE && |ck| == 2
    ensures var r := msg[..16] + ck + msg[18..];
            && |r| == |msg| && r[16..18] == ck && Blanked(r) == Blanked(msg)
            && forall i :: 0 <= i < |msg| && i != 16 && i != 17 ==> r[i] == msg[i]
  {
    var r := msg[..16] + ck + msg[18..];
    assert r[..16] == msg[..16] && r[18..] == msg[18..];
  }

  /** Storing a fresh checksum without clearing the field first makes a message the receiver accepts exactly when the
      field held 0x0000, or held 0xffff in a message that is not otherwise all zero. */
  lemma SealedPasses(e: Endian, msg: seq<Byte>)
    requires |msg| >= HDR_SIZE
    ensures Passes(e, Sealed(e, msg)) <==>
            (msg[16] == msg[17] == 0) || (msg[16] == msg[17] == 0xff && Sum(Words(e, Blanked(msg))) != 0)
  {
    hide Sum, Words, InternetChecksum, FromBE, Sealed;
    SealedShape(e, msg);
    FieldSum(e, msg);
    EqualChecksums(e, msg, Blanked(msg));
    SameResidue(Sum(Words(e, Blanked(msg))), Pair(e, msg[16], msg[17]));
  }

  lemma SameResidue(s: nat, w: Word)
    ensures (s + w) % 0xffff == s % 0xffff <==> w == 0 || w == 0xffff
  {
    if (s + w) % 0xffff == s % 0xffff {
      var d := (s + w) / 0xffff - s / 0xffff;
      assert w == 0xffff * d;
    }
  }

  /** The verification of section 1 of RFC 1071: with the field clear, the checksum in its place makes the sum of the whole
      message all ones. */
  lemma SumsToAllOnes(e: Endian, msg: seq<Byte>)
    requires |msg| >= HDR_SIZE && msg[16] == msg[17] == 0
    ensures OnesSum(Words(e, msg[..16] + Stored(e, InternetChecksum(e, msg), 2) + msg[18..])) == 0xffff
  {
    var ck := InternetChecksum(e, msg);
    assert Blanked(msg) == msg;
    WithField(e, msg, Stored(e, ck, 2));
    StoredPair(e, ck);
    hide Words, Sum, OnesSum, Stored;
    Complement(Sum(Words(e, msg)));
  }

  /** As the source stores it, in network order, the same holds exactly on a big-endian host or if both bytes are equal. */
  lemma SealedSum(e: Endian, msg: seq<Byte>)
    requires |msg| >= HDR_SIZE && msg[16] == msg[17] == 0
    ensures var ck := InternetChecksum(e, msg);
            OnesSum(Words(e, Sealed(e, msg))) == 0xffff <==> e.Big? || ck / 256 == ck % 256
  {
    var ck := InternetChecksum(e, msg);
    assert Blanked(msg) == msg;
    WithField(e, msg, ToBE(ck, 2));
    StoredPair(Big, ck);
    SwapOf(ck / 256, ck % 256);
    hide Words, Sum, OnesSum, Stored, ToBE;
    Complement(Sum(Words(e, msg)));
    SwappedComplement(Sum(Words(e, msg)), ck / 256, ck % 256);
  }

  lemma WithField(e: Endian, msg: seq<Byte>, field: seq<Byte>)
    requires |msg| >= HDR_SIZE && |field| == 2
    ensures var r := msg[..16] + field + msg[18..];
            OnesSum(Words(e, r)) == Residue(Sum(Words(e, Blanked(msg))) + Pair(e, field[0], field[1]))
    ensures InternetChecksum(e, Blanked(msg)) == 0xffff - Residue(Sum(Words(e, Blanked(msg))))
  {
    var r := msg[..16] + field + msg[18..];
    FieldReplaced(msg, field);
    FieldSum(e, r);
    assert r[16..18] == field && r[16] == field[0] && r[17] == field[1];
    OnesSumIsResidue(Words(e, r));
    OnesSumIsResidue(Words(e, Blanked(msg)));
  }

  lemma StoredPair(e: Endian, w: Word)
    ensures var s := Stored(e, w, 2);
            |s| == 2 && Pair(e, s[0], s[1]) == w && (e.Big? ==> s == ToBE(w, 2) == [w / 256, w % 256])
  {
    assert ToBE(w, 2) == [w / 256, w % 256];
  }

  lemma Complement(s: nat)
    ensures Residue(s + (0xffff - Residue(s))) == 0xffff
  {}

  lemma SwappedComplement(s: nat, hi: nat, lo: nat)
    requires hi < 256 && lo < 256 && 256 * hi + lo == 0xffff - Residue(s)
    ensures Residue(s + (256 * lo + hi)) == 0xffff <==> hi == lo
  {
    if s == 0 {
      assert hi == lo == 255;
    } else {
      var q, d := (s - 1) / 0xffff, 255 * (lo - hi);
      assert s == 0xffff * q + Residue(s);
      assert s + (256 * lo + hi) == 0xffff * (q + 1) + d;
      FullResidue(q + 1, d);
    }
  }

  lemma FullResidue(k: nat, d: int)
    requires k > 0 && -0xffff < d < 0xffff
    ensures Residue(0xffff * k + d) == 0xffff <==> d == 0
  {
    if d > 0 {
      ResidueShift(d, k);
    } else {
      ResidueShift(0xffff + d, k - 1);
      assert 0xffff * k + d == 0xffff + d + 0xffff * (k - 1);
    }
  }

  /** A frame corrupted in one 16-bit word other than the checksum field, anywhere in the message, is still accepted
      exactly when the word changed between 0x0000 and 0xffff and the rest of the message is not all zero. */
  lemma OneWordError(e: Endian, a: seq<Byte>, w: (Byte, Byte), v: (Byte, Byte), b: seq<Byte>)
    requires |a| % 2 == 0 && w != v
    ensures InternetChecksum(e, a + [w.0, w.1] + b) == InternetChecksum(e, a + [v.0, v.1] + b) <==>
            ((w == (0, 0) && v == (0xff, 0xff)) || (w == (0xff, 0xff) && v == (0, 0))) &&
            Sum(Words(e, a)) + Sum(Words(e, b)) != 0
  {
    hide InternetChecksum, Words, Sum, Pair;
    SplitSum(e, a, w.0, w.1, b);
    SplitSum(e, a, v.0, v.1, b);
    EqualChecksums(e, a + [w.0, w.1] + b, a + [v.0, v.1] + b);
    PairValues(e, w, v);
    WordCongruence(Sum(Words(e, a)) + Sum(Words(e, b)), Pair(e, w.0, w.1), Pair(e, v.0, v.1));
  }

  /** The message is zero but for the word at i and the checksum field. */
  predicate BlankBut(msg: seq<Byte>, i: nat)
  {
    forall k :: 0 <= k < |msg| && k != i && k != i + 1 && k != 16 && k != 17 ==> msg[k] == 0
  }

  /** The same of the receiver's check: a frame that passes, with the word at position i changed, still passes exactly for
      that change. */
  lemma OneWordErrorPasses(e: Endian, msg: seq<Byte>, i: nat, v: (Byte, Byte))
    requires |msg| >= HDR_SIZE && Passes(e, msg)
    requires i % 2 == 0 && i + 1 < |msg| && i != 16 && v != (msg[i], msg[i + 1])
    ensures var w := (msg[i], msg[i + 1]);
            Passes(e, msg[i := v.0][i + 1 := v.1]) <==>
              ((w == (0, 0) && v == (0xff, 0xff)) || (w == (0xff, 0xff) && v == (0, 0))) && !BlankBut(msg, i)
  {
    hide InternetChecksum, Words, Sum, FromBE, BlankBut, AllZero;
    var blank := Blanked(msg);
    ChangedWord(msg, i, v);
    OneWordError(e, blank[..i], (msg[i], msg[i + 1]), v, blank[i + 2..]);
    ZeroSum(e, blank[..i]);
    ZeroSum(e, blank[i + 2..]);
  }

  lemma BlankByte(msg: seq<Byte>, k: nat)
    requires |msg| >= HDR_SIZE && k < |msg|
    ensures Blanked(msg)[k] == if k == 16 || k == 17 then 0 else msg[k]
  {}

  lemma ChangedWord(msg: seq<Byte>, i: nat, v: (Byte, Byte))
    requires |msg| >= HDR_SIZE && i % 2 == 0 && i + 1 < |msg| && i != 16
    ensures var bad, blank := msg[i := v.0][i + 1 := v.1], Blanked(msg);
            && bad[16..18] == msg[16..18]
            && blank == blank[..i] + [msg[i], msg[i + 1]] + blank[i + 2..]
            && Blanked(bad) == blank[..i] + [v.0, v.1] + blank[i + 2..]
            && (BlankBut(msg, i) <==> AllZero(blank[..i]) && AllZero(blank[i + 2..]))
  {
    var bad, blank := msg[i := v.0][i + 1 := v.1], Blanked(msg);
    forall k | 0 <= k < |msg|
      ensures blank[k] == if k == 16 || k == 17 then 0 else msg[k]
      ensures Blanked(bad)[k] == if k == i then v.0 else if k == i + 1 then v.1 else blank[k]
    {
      BlankByte(msg, k);
      BlankByte(bad, k);
    }
    hide Blanked;
    assert blank == blank[..i] + [msg[i], msg[i + 1]] + blank[i + 2..];
    assert Blanked(bad) == blank[..i] + [v.0, v.1] + blank[i + 2..];
    ZeroElsewhere(msg, blank, i);
  }

  lemma ZeroElsewhere(msg: seq<Byte>, blank: seq<Byte>, i: nat)
    requires |blank| == |msg| >= HDR_SIZE && i + 1 < |msg| && i % 2 == 0
    requires forall k :: 0 <= k < |msg| ==> blank[k] == if k == 16 || k == 17 then 0 else msg[k]
    ensures BlankBut(msg, i) <==> AllZero(blank[..i]) && AllZero(blank[i + 2..])
  {
    if AllZero(blank[..i]) && AllZero(blank[i + 2..]) {
      forall k | 0 <= k < |msg| && k != i && k != i + 1 && k != 16 && k != 17
        ensures msg[k] == 0
      {
        assert msg[k] == blank[k] && (if k < i then blank[..i][k] else blank[i + 2..][k - i - 2]) == 0;
      }
    }
  }

  predicate AllZero(s: seq<Byte>)
  {
    forall k :: 0 <= k < |s| ==> s[k] == 0
  }

  lemma {:induction false} ZeroSum(e: Endian, s: seq<Byte>)
    ensures Sum(Words(e, s)) == 0 <==> AllZero(s)
  {
    if |s| >= 2 {
      ZeroSum(e, s[2..]);
      assert Sum(Words(e, s)) == Pair(e, s[0], s[1]) + Sum(Words(e, s[2..]));
      assert AllZero(s) <==> s[0] == s[1] == 0 && AllZero(s[2..]) by {
        assert forall k :: 2 <= k < |s| ==> s[k] == s[2..][k - 2];
      }
    } else if |s| == 1 {
      assert Words(e, s) == [Pair(e, s[0], 0)];
    }
  }

  lemma PairValues(e: Endian, w: (Byte, Byte), v: (Byte, Byte))
    ensures Pair(e, w.0, w.1) == 0 <==> w == (0, 0)
    ensures Pair(e, w.0, w.1) == 0xffff <==> w == (0xff, 0xff)
    ensures Pair(e, v.0, v.1) == 0 <==> v == (0, 0)
    ensures Pair(e, v.0, v.1) == 0xffff <==> v == (0xff, 0xff)
    ensures Pair(e, w.0, w.1) == Pair(e, v.0, v.1) <==> w == v
  {}

  lemma WordCongruence(s: nat, w: Word, v: Word)
    requires w != v
    ensures (s + w) % 0xffff == (s + v) % 0xffff && (s + w == 0 <==> s + v == 0) <==>
            ((w == 0 && v == 0xffff) || (w == 0xffff && v == 0)) && s != 0
  {
    if (s + w) % 0xffff == (s + v) % 0xffff {
      var d := (s + w) / 0xffff - (s + v) / 0xffff;
      assert w - v == 0xffff * d;
    }
  }
}
