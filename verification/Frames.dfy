/** Real messages through the simulator: which it takes, which it refuses, and what becomes of a data indication. */
module Frames {
  import opened Bytes
  import opened Checksum
  import opened Wire
  import opened Messages
  import opened NodeSimulator
  import opened Protocol

  /** Every stream of bytes, decided: too short for a length, a length below 8 in host order, an incomplete message or one
      shorter than its header, a wrong checksum, a foreign node id, a wrong version or type, and the four types that are
      handled. */
  lemma ReadMsgDecides(e: Endian, myId: nat, stream: seq<Byte>)
    ensures ReadMsg(e, myId, stream) ==
            if |stream| < 2 then Broken(AssertFailed)
            else
              var len := 256 * stream[0] as int + stream[1] as int;
              var raw := if e.Little? then stream[0] as int + 256 * stream[1] as int else len;
              if raw < 8 then Broken(AssertFailed)
              else if len < 18 || |stream| < len then Broken(Undefined)
              else
                var msg, blank := stream[..len], stream[..16] + [0, 0] + stream[18..len];
                var t := FromBE(msg[2..4]);
                if FromBE(msg[16..18]) != InternetChecksum(e, blank) then Dropped
                else if FromBE(msg[8..16]) != myId then Broken(AssertFailed)
                else if FromBE(msg[4..8]) != 1 || t !in {1, 2, 4, 6} then Dropped
                else if t == 1 then if len < 82 then Broken(Undefined) else RegCon(blank[18..50], blank[50..82])
                else if t == 2 then DeregReq
                else if t == 4 then CcaReq
                else if len < 34 then Broken(Undefined)
                else DataInd(blank)
  {
    if |stream| >= 2 {
      TwoBytes(e, stream[0], stream[1], 0);
      assert stream[..2] == [stream[0], stream[1]];
      var len := FromBE(stream[..2]);
      if 18 <= len <= |stream| {
        assert Blanked(stream[..len]) == stream[..16] + [0, 0] + stream[18..len];
      }
    }
    hide FromBE, InternetChecksum, Loaded;
  }

  // Corruption

  /** The one change of a word that the checksum cannot see. */
  predicate Unseen(w: (Byte, Byte), v: (Byte, Byte))
  {
    (w == (0, 0) && v == (0xff, 0xff)) || (w == (0xff, 0xff) && v == (0, 0))
  }

  /** A frame with one word changed, in the checksum field or elsewhere after the length field, no longer passes. */
  lemma CorruptedFails(e: Endian, msgType: nat, id: nat, body: seq<Byte>, i: nat, v: (Byte, Byte))
    requires msgType < 8 && id < TWO64
    requires var msg := Frame(e, msgType, id, body);
             && i % 2 == 0 && 2 <= i && i + 1 < |msg| && v != (msg[i], msg[i + 1])
             && (i == 16 || !Unseen((msg[i], msg[i + 1]), v))
    ensures !Passes(e, Frame(e, msgType, id, body)[i := v.0][i + 1 := v.1])
  {
    hide Frame, FromBE, InternetChecksum;
    var msg := Frame(e, msgType, id, body);
    FramePasses(e, e, msgType, id, body);
    if i == 16 {
      FieldChanged(e, msg, v);
    } else {
      OneWordErrorPasses(e, msg, i, v);
    }
  }

  lemma FieldChanged(e: Endian, msg: seq<Byte>, v: (Byte, Byte))
    requires |msg| >= HDR_SIZE && Passes(e, msg) && v != (msg[16], msg[17])
    ensures !Passes(e, msg[16 := v.0][17 := v.1])
  {
    var bad: seq<Byte> := msg[16 := v.0][17 := v.1];
    assert Blanked(bad) == Blanked(msg);
    assert bad[16..18] == [v.0, v.1] && msg[16..18] == [msg[16], msg[17]];
    TwoBytes(e, v.0, v.1, 0);
    TwoBytes(e, msg[16], msg[17], 0);
    hide FromBE, InternetChecksum, Blanked;
  }

  /** A message of any type that was corrupted in one word on its way is dropped, whatever follows it in the stream. */
  lemma CorruptedIsDropped(e: Endian, msgType: nat, id: nat, body: seq<Byte>, i: nat, v: (Byte, Byte), rest: seq<Byte>)
    requires msgType < 8 && id < TWO64 && LengthReadable(e, HDR_SIZE + |body|)
    requires var msg := Frame(e, msgType, id, body);
             && i % 2 == 0 && 2 <= i && i + 1 < |msg| && v != (msg[i], msg[i + 1])
             && (i == 16 || !Unseen((msg[i], msg[i + 1]), v))
    ensures ReadMsg(e, id, Frame(e, msgType, id, body)[i := v.0][i + 1 := v.1] + rest) == Dropped
  {
    hide Frame, FromBE, Loaded, InternetChecksum, Unseen, ReadMsg, Passes;
    var msg := Frame(e, msgType, id, body);
    var bad: seq<Byte> := msg[i := v.0][i + 1 := v.1];
    CorruptedFails(e, msgType, id, body, i, v);
    FrameLength(e, e, msgType, id, body, rest);
    ReadableLength(e, HDR_SIZE + |body|);
    assert (bad + rest)[..2] == (msg + rest)[..2];
    ReadsPrefix(e, id, bad, rest, |msg|, Loaded(e, (msg + rest)[..2]));
    assert Parse(e, id, bad) == Dropped;
  }

  /** It leaves the medium as it was. */
  lemma CorruptedIsIgnored(m: Medium, msgType: nat, id: NodeId, body: seq<Byte>, i: nat, v: (Byte, Byte), rest: seq<Byte>)
    requires msgType < 8 && id < TWO64 && LengthReadable(m.host, HDR_SIZE + |body|)
    requires var msg := Frame(m.host, msgType, id, body);
             && i % 2 == 0 && 2 <= i && i + 1 < |msg| && v != (msg[i], msg[i + 1])
             && (i == 16 || !Unseen((msg[i], msg[i + 1]), v))
    ensures HandleEvent(m, Recv(id, Frame(m.host, msgType, id, body)[i := v.0][i + 1 := v.1] + rest)) == m
  {
    hide Frame, ReadMsg, Unseen, LengthReadable;
    CorruptedIsDropped(m.host, msgType, id, body, i, v, rest);
  }

  // A data indication

  /** What goes out is the data indication that came in, with an rssi of 127: every other field, the node id and the payload
      included, as the client sent it. */
  lemma MulticastOfFrame(e: Endian, id: nat, source: nat, psduLen: Word, extra: Word, repCode: Byte, txPower: Byte,
                         ccaMode: Byte, rssi: Byte, data: seq<Byte>)
    requires id < TWO64
    ensures var came := Frame(e, MSG_TYPE_TX_DATA_IND, id,
                              DataIndBody(source, psduLen, extra, repCode, txPower, ccaMode, rssi, data));
            Outgoing(e, Blanked(came)) == Frame(e, MSG_TYPE_TX_DATA_IND, id,
                                                DataIndBody(source, psduLen, extra, repCode, txPower, ccaMode, 127, data))
  {
    var body := DataIndBody(source, psduLen, extra, repCode, txPower, ccaMode, rssi, data);
    var body' := DataIndBody(source, psduLen, extra, repCode, txPower, ccaMode, 127, data);
    var len := (HDR_SIZE + |body|) % 0x1_0000;
    var blank := Header(len, MSG_TYPE_TX_DATA_IND, id, 0) + body;
    HeaderIsBlank(len, MSG_TYPE_TX_DATA_IND, id, body);
    SealedShape(e, blank);
    assert Blanked(Frame(e, MSG_TYPE_TX_DATA_IND, id, body)) == blank;
    RssiReplaced(source, psduLen, extra, repCode, txPower, ccaMode, rssi, data);
    hide Frame, Header, Sealed, DataIndBody, Blanked;
    assert blank[33 := 127] == Header(len, MSG_TYPE_TX_DATA_IND, id, 0) + body';
    FrameIs(e, MSG_TYPE_TX_DATA_IND, id, body');
  }

  lemma FrameIs(e: Endian, msgType: nat, id: nat, body: seq<Byte>)
    ensures Frame(e, msgType, id, body) == Sealed(e, Header((HDR_SIZE + |body|) % 0x1_0000, msgType, id, 0) + body)
  {}

  lemma RssiReplaced(source: nat, psduLen: Word, extra: Word, repCode: Byte, txPower: Byte, ccaMode: Byte, rssi: Byte,
                     data: seq<Byte>)
    ensures var body := DataIndBody(source, psduLen, extra, repCode, txPower, ccaMode, rssi, data);
            && |body| >= 16
            && body[15 := 127] == DataIndBody(source, psduLen, extra, repCode, txPower, ccaMode, 127, data)
  {
    hide ToBE;
    var front := ToBE(source, 8) + ToBE(psduLen, 2) + ToBE(extra, 2);
    assert |front| == 12;
    assert DataIndBody(source, psduLen, extra, repCode, txPower, ccaMode, rssi, data) ==
           front + [repCode, txPower, ccaMode, rssi] + data;
    assert DataIndBody(source, psduLen, extra, repCode, txPower, ccaMode, 127, data) ==
           front + [repCode, txPower, ccaMode, 127] + data;
  }

  /** txPacket dumps past the end exactly of a packet that announces more payload than follows its fixed fields. */
  lemma OverrunExactly(e: Endian, id: nat, source: nat, psduLen: Word, extra: Word, repCode: Byte, txPower: Byte,
                       ccaMode: Byte, rssi: Byte, data: seq<Byte>)
    requires id < TWO64
    ensures var came := Blanked(Frame(e, MSG_TYPE_TX_DATA_IND, id,
                                      DataIndBody(source, psduLen, extra, repCode, txPower, ccaMode, rssi, data)));
            |came| == 34 + |data| && (Overstates(came) <==> psduLen > |data|)
  {
    DataIndLayout(e, id, source, psduLen, extra, repCode, txPower, ccaMode, rssi, data);
    Powers();
    FromToBE(psduLen, 2);
    hide Frame, DataIndBody, FromBE;
    var msg := Frame(e, MSG_TYPE_TX_DATA_IND, id,
                     DataIndBody(source, psduLen, extra, repCode, txPower, ccaMode, rssi, data));
    assert Blanked(msg)[26..28] == msg[26..28];
  }

  /** isAck looks at the first byte of the message, the high byte of its length. So a data indication is timed as an
      acknowledgement, one nanosecond in the air, exactly for lengths of 512 to 767 bytes in every 2048. */
  lemma AckByLength(e: Endian, id: nat, body: seq<Byte>)
    requires id < TWO64 && 18 + |body| < 0x1_0000
    ensures IsAck(Blanked(Frame(e, MSG_TYPE_TX_DATA_IND, id, body))) <==> 512 <= (18 + |body|) % 2048 < 768
  {
    FrameStart(e, MSG_TYPE_TX_DATA_IND, id, body);
    hide Frame;
    var n := 18 + |body|;
    var msg := Frame(e, MSG_TYPE_TX_DATA_IND, id, body);
    assert Blanked(msg)[0] == msg[0] == msg[..4][0] == n / 256 % 256;
    HighBits(n);
  }

  lemma HighBits(n: nat)
    requires n < 0x1_0000
    ensures n / 256 % 256 % 8 == 2 <==> 512 <= n % 2048 < 768
  {
    var q, r := n / 2048, n % 2048;
    assert n / 256 == 8 * q + r / 256;
    assert n / 256 % 256 == n / 256;
  }
}
