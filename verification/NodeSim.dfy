/** The client side (NodeSim) and the senders of the simulator side, with the wire round trips between them. */
module NodeSimulator {
  import opened Bytes
  import opened Checksum
  import opened Wire
  import opened Messages

  /** The fixed fields of a data indication after its header, and the frame that follows them. */
  function DataIndBody(source: nat, psduLen: Word, extra: Word, repCode: Byte, txPower: Byte, ccaMode: Byte, rssi: Byte,
                       data: seq<Byte>): (body: seq<Byte>)
    ensures |body| == DATA_IND_SIZE - HDR_SIZE + |data|
  {
    ToBE(source, 8) + ToBE(psduLen, 2) + ToBE(extra, 2) + [repCode, txPower, ccaMode, rssi] + data
  }

  /** The test data sendTxDataInd transmits: 0, 1, 2, ... modulo 256. */
  function Ramp(n: nat): (data: seq<Byte>)
    ensures |data| == n
    ensures forall i :: 0 <= i < n ==> data[i] == i % 256
  {
    seq(n, i => i % 256)
  }

  function ZeroPadded(s: seq<Byte>, n: nat): (r: seq<Byte>)
    requires |s| <= n
    ensures |r| == n
  {
    s + seq(n - |s|, i => 0)
  }

  const LINUX: seq<Byte> := [108, 105, 110, 117, 120]
  const OS_VERSION: seq<Byte> := [52, 46, 49, 46, 48, 32, 114, 99, 52]

  class NodeSim {
    var nodeId: nat

    constructor ()
      ensures nodeId == TWO64 - 1
    {
      nodeId := TWO64 - 1;
    }

    method SendRegCon(e: Endian) returns (sent: seq<Byte>)
      requires nodeId < TWO64
      ensures sent == Frame(e, MSG_TYPE_REG_CON, nodeId, ZeroPadded(LINUX, 32) + ZeroPadded(OS_VERSION, 32))
      ensures |sent| == 82 && sent[..4] == [0, 82, 0, 1]
      ensures forall i :: 0 <= i < 32 ==> sent[18 + i] == if i < 5 then "linux"[i] as int else 0
      ensures forall i :: 0 <= i < 32 ==> sent[50 + i] == if i < 9 then "4.1.0 rc4"[i] as int else 0
    {
      hide Frame, ZeroPadded;
      var body := ZeroPadded(LINUX, 32) + ZeroPadded(OS_VERSION, 32);
      OverflowBound(e, REG_CON_SIZE);
      FrameStart(e, MSG_TYPE_REG_CON, nodeId, body);
      FrameFields(e, MSG_TYPE_REG_CON, nodeId, body);
      SystemNames();
      sent := BuildFrame(e, MSG_TYPE_REG_CON, nodeId, body);
      assert forall i :: 0 <= i < 64 ==> sent[18 + i] == sent[18..][i] == body[i];
      assert forall i :: 0 <= i < 32 ==> body[32 + i] == ZeroPadded(OS_VERSION, 32)[i];
    }

    method SendDeregReq(e: Endian) returns (sent: seq<Byte>)
      requires nodeId < TWO64
      ensures sent == Frame(e, MSG_TYPE_DEREG_REQ, nodeId, [])
      ensures |sent| == 18 && sent[..4] == [0, 18, 0, 2]
    {
      OverflowBound(e, HDR_SIZE);
      hide Frame;
      FrameStart(e, MSG_TYPE_DEREG_REQ, nodeId, []);
      sent := BuildFrame(e, MSG_TYPE_DEREG_REQ, nodeId, []);
    }

    method SendCcaReq(e: Endian) returns (sent: seq<Byte>)
      requires nodeId < TWO64
      ensures sent == Frame(e, MSG_TYPE_CCA_REQ, nodeId, [])
      ensures |sent| == 18 && sent[..4] == [0, 18, 0, 4]
    {
      OverflowBound(e, HDR_SIZE);
      hide Frame;
      FrameStart(e, MSG_TYPE_CCA_REQ, nodeId, []);
      sent := BuildFrame(e, MSG_TYPE_CCA_REQ, nodeId, []);
    }

    /** extra is the field the source leaves as malloc returned it. */
    method SendTxDataInd(e: Endian, source: nat, psduLen: Word, repCode: Byte, txPower: int, ccaMode: Byte, extra: Word)
      returns (sent: seq<Byte>)
      requires nodeId < TWO64 && source < TWO64 && -128 <= txPower < 128
      ensures sent == Frame(e, MSG_TYPE_TX_DATA_IND, nodeId,
                            DataIndBody(source, psduLen, extra, repCode, -txPower % 256, ccaMode, 0, Ramp(psduLen)))
      ensures |sent| == 34 + psduLen && sent[..4] == [|sent| / 256 % 256, |sent| % 256, 0, 6]
    {
      var pktData := new Byte[psduLen];
      var i := 0;
      while i < psduLen
        invariant 0 <= i <= psduLen
        invariant pktData[..i] == Ramp(i)
      {
        pktData[i] := i % 256;
        i := i + 1;
      }
      assert pktData[..] == pktData[..psduLen];
      var body := DataIndBody(source, psduLen, extra, repCode, -txPower % 256, ccaMode, 0, pktData[..]);
      DataIndSum(e, nodeId, body, psduLen);
      hide Frame;
      FrameStart(e, MSG_TYPE_TX_DATA_IND, nodeId, body);
      sent := BuildFrame(e, MSG_TYPE_TX_DATA_IND, nodeId, body);
    }

    /** readMsg: a bad checksum fails the assert, a message only clients send is thrown out, and only a registration
        request changes the node id in use. */
    method ReadMsg(e: Endian, stream: seq<Byte>) returns (heard: Heard)
      modifies this
      ensures var msg := Received(stream);
              && heard == ClientRead(e, old(nodeId), msg)
              && (|msg| >= HDR_SIZE ==>
                    var t := FromBE(msg[2..4]);
                    && (heard == Refused(AssertFailed) <==> FromBE(msg[16..18]) != InternetChecksum(e, Blanked(msg)))
                    && (heard == Refused(Thrown) <==>
                          Passes(e, msg) && (t == MSG_TYPE_REG_CON || t == MSG_TYPE_CCA_REQ || t > MSG_TYPE_TX_DONE_IND))
                    && nodeId == (if Passes(e, msg) && t == MSG_TYPE_REG_REQ then FromBE(msg[8..16]) else old(nodeId)))
    {
      hide FromBE, Hton, Loaded, InternetChecksum;
      var n := if |stream| < RECV_MAX then |stream| else RECV_MAX;
      var replyBuffer := new Byte[n](i requires 0 <= i < n => stream[i]);
      assert replyBuffer[..] == Received(stream);
      if n < HDR_SIZE {
        return Refused(Undefined);
      }
      NtohLoaded(e, replyBuffer[16..18]);
      var cksum := Hton(e, Loaded(e, replyBuffer[16..18]), 2);
      replyBuffer[16], replyBuffer[17] := 0, 0;
      OverflowBound(e, n);
      var calculated := GenerateChecksum(e, replyBuffer[..]);
      SameFields(Received(stream), replyBuffer[..]);
      if calculated != cksum {
        return Refused(AssertFailed);
      }
      NtohLoaded(e, replyBuffer[2..4]);
      var msgType := Hton(e, Loaded(e, replyBuffer[2..4]), 2);
      if msgType == MSG_TYPE_REG_REQ {
        NtohLoaded(e, replyBuffer[8..16]);
        nodeId := Hton(e, Loaded(e, replyBuffer[8..16]), 8);
        heard := Heard(nodeId, msgType, replyBuffer[18..]);
      } else if msgType == MSG_TYPE_CCA_REQ || msgType == MSG_TYPE_REG_CON || msgType > MSG_TYPE_TX_DONE_IND {
        heard := Refused(Thrown);
      } else {
        heard := Heard(nodeId, msgType, replyBuffer[18..]);
      }
    }
  }

  lemma SystemNames()
    ensures forall i :: 0 <= i < 32 ==> ZeroPadded(LINUX, 32)[i] == if i < 5 then "linux"[i] as int else 0
    ensures forall i :: 0 <= i < 32 ==> ZeroPadded(OS_VERSION, 32)[i] == if i < 9 then "4.1.0 rc4"[i] as int else 0
  {}

  const RECV_MAX := 128

  /** What one recv of the client takes. */
  function Received(stream: seq<Byte>): seq<Byte>
  {
    if |stream| <= RECV_MAX then stream else stream[..RECV_MAX]
  }

  lemma SameFields(msg: seq<Byte>, cleared: seq<Byte>)
    requires |cleared| == |msg| >= HDR_SIZE && cleared[16] == cleared[17] == 0
    requires forall i :: 0 <= i < |msg| && i != 16 && i != 17 ==> cleared[i] == msg[i]
    ensures cleared == Blanked(msg) && cleared[2..4] == msg[2..4] && cleared[8..16] == msg[8..16]
    ensures cleared[18..] == msg[18..]
  {}

  /** Even the longest data indications, whose length exceeds 16 bits, are summed without overflow: half of every 256
      bytes of the ramp have their top bit clear. */
  lemma DataIndSum(e: Endian, id: nat, body: seq<Byte>, psduLen: Word)
    requires |body| == 16 + psduLen && body[16..] == Ramp(psduLen)
    ensures Sum(Words(e, Header((HDR_SIZE + |body|) % 0x1_0000, MSG_TYPE_TX_DATA_IND, id, 0) + body)) <= INT_MAX
  {
    hide Words, Sum, Header;
    var header := Header((HDR_SIZE + |body|) % 0x1_0000, MSG_TYPE_TX_DATA_IND, id, 0);
    if psduLen < 128 {
      OverflowBound(e, |header + body|);
    } else {
      assert header + body == (header + body[..16]) + (body[16..144] + body[144..]);
      SumInThree(e, header + body[..16], body[16..144], body[144..]);
      assert forall i :: 0 <= i < 128 ==> body[16..144][i] == body[16..][i] == i;
      LowRamp(e, body[16..144]);
    }
  }

  lemma SumInThree(e: Endian, a: seq<Byte>, b: seq<Byte>, c: seq<Byte>)
    requires |a| % 2 == |b| % 2 == 0
    ensures Sum(Words(e, a + (b + c))) <= LargestSum(e, |a|) + Sum(Words(e, b)) + LargestSum(e, |c|)
  {
    hide Words, Sum;
    WordsConcat(e, a, b + c);
    WordsConcat(e, b, c);
    SumConcat(Words(e, a), Words(e, b + c));
    SumConcat(Words(e, b), Words(e, c));
    SumBound(e, a);
    SumBound(e, c);
  }

  lemma {:induction false} LowRamp(e: Endian, s: seq<Byte>)
    requires |s| % 2 == 0 && forall i :: 0 <= i < |s| ==> s[i] < 128
    ensures Sum(Words(e, s)) <= 0x7fff * (|s| / 2)
  {
    if s != [] {
      LowRamp(e, s[2..]);
      assert Words(e, s)[1..] == Words(e, s[2..]);
    }
  }

  // The simulator's own messages

  method SendRegistrationRequest(e: Endian, id: nat) returns (sent: seq<Byte>)
    requires id < TWO64
    ensures sent == Frame(e, MSG_TYPE_REG_REQ, id, [])
    ensures |sent| == 18 && sent[..4] == [0, 18, 0, 0]
  {
    OverflowBound(e, HDR_SIZE);
    hide Frame;
    FrameStart(e, MSG_TYPE_REG_REQ, id, []);
    sent := BuildFrame(e, MSG_TYPE_REG_REQ, id, []);
  }

  method SendDeregistrationConfirm(e: Endian, id: nat) returns (sent: seq<Byte>)
    requires id < TWO64
    ensures sent == Frame(e, MSG_TYPE_DEREG_CON, id, [])
    ensures |sent| == 18 && sent[..4] == [0, 18, 0, 3]
  {
    OverflowBound(e, HDR_SIZE);
    hide Frame;
    FrameStart(e, MSG_TYPE_DEREG_CON, id, []);
    sent := BuildFrame(e, MSG_TYPE_DEREG_CON, id, []);
  }

  method SendCcaConfirm(e: Endian, id: nat, clear: bool) returns (sent: seq<Byte>)
    requires id < TWO64
    ensures sent == Frame(e, MSG_TYPE_CCA_CON, id, [if clear then 1 else 0])
    ensures |sent| == 19 && sent[..4] == [0, 19, 0, 5]
  {
    OverflowBound(e, HDR_SIZE + 1);
    hide Frame;
    FrameStart(e, MSG_TYPE_CCA_CON, id, [if clear then 1 else 0]);
    sent := BuildFrame(e, MSG_TYPE_CCA_CON, id, [if clear then 1 else 0]);
  }

  method SendTxDoneIndication(e: Endian, id: nat, result: Byte) returns (sent: seq<Byte>)
    requires id < TWO64
    ensures sent == Frame(e, MSG_TYPE_TX_DONE_IND, id, [result])
    ensures |sent| == 19 && sent[..4] == [0, 19, 0, 7]
  {
    OverflowBound(e, HDR_SIZE + 1);
    hide Frame;
    FrameStart(e, MSG_TYPE_TX_DONE_IND, id, [result]);
    sent := BuildFrame(e, MSG_TYPE_TX_DONE_IND, id, [result]);
  }

  // Round trips

  /** Every field of a frame can be read back. */
  lemma FrameFields(e: Endian, msgType: nat, id: nat, body: seq<Byte>)
    requires msgType < 8 && id < TWO64
    ensures var msg := Frame(e, msgType, id, body);
            && FromBE(msg[..2]) == (HDR_SIZE + |body|) % 0x1_0000
            && FromBE(msg[2..4]) == msgType
            && FromBE(msg[4..8]) == 1
            && FromBE(msg[8..16]) == id
            && msg[18..] == body && |msg| == 18 + |body|
  {
    var len := (HDR_SIZE + |body|) % 0x1_0000;
    var ck := InternetChecksum(e, Header(len, msgType, id, 0) + body);
    SealedHeader(e, len, msgType, id, body);
    Slices(ToBE(len, 2), ToBE(msgType, 2), ToBE(INTERFACE_VERSION, 4), ToBE(id, 8), ToBE(ck, 2), body);
    Powers();
    FromToBE(len, 2);
    FromToBE(msgType, 2);
    FromToBE(INTERFACE_VERSION, 4);
    FromToBE(id, 8);
  }

  /** Where the fields of a data indication are. */
  lemma DataIndLayout(e: Endian, id: nat, source: nat, psduLen: Word, extra: Word, repCode: Byte, txPower: Byte,
                      ccaMode: Byte, rssi: Byte, data: seq<Byte>)
    requires id < TWO64
    ensures var msg := Frame(e, MSG_TYPE_TX_DATA_IND, id,
                             DataIndBody(source, psduLen, extra, repCode, txPower, ccaMode, rssi, data));
            && |msg| == 34 + |data| && msg[2..4] == [0, 6] && FromBE(msg[8..16]) == id
            && msg[18..26] == ToBE(source, 8) && msg[26..28] == ToBE(psduLen, 2) && msg[28..30] == ToBE(extra, 2)
            && msg[30] == repCode && msg[31] == txPower && msg[32] == ccaMode && msg[33] == rssi && msg[34..] == data
  {
    var body := DataIndBody(source, psduLen, extra, repCode, txPower, ccaMode, rssi, data);
    var msg := Frame(e, MSG_TYPE_TX_DATA_IND, id, body);
    BodyLayout(source, psduLen, extra, repCode, txPower, ccaMode, rssi, data);
    FrameFields(e, MSG_TYPE_TX_DATA_IND, id, body);
    FrameStart(e, MSG_TYPE_TX_DATA_IND, id, body);
    hide Frame, FromBE, DataIndBody, ToBE;
    assert msg[2..4] == msg[..4][2..4];
    assert msg[18..26] == msg[18..][..8] && msg[26..28] == msg[18..][8..10] && msg[28..30] == msg[18..][10..12];
    assert forall k :: 0 <= k < |body| ==> msg[18 + k] == msg[18..][k] == body[k];
    assert msg[34..] == msg[18..][16..];
  }

  lemma BodyLayout(source: nat, psduLen: Word, extra: Word, repCode: Byte, txPower: Byte, ccaMode: Byte, rssi: Byte,
                   data: seq<Byte>)
    ensures var b := DataIndBody(source, psduLen, extra, repCode, txPower, ccaMode, rssi, data);
            && |b| == 16 + |data| && b[..8] == ToBE(source, 8) && b[8..10] == ToBE(psduLen, 2) && b[10..12] == ToBE(extra, 2)
            && b[12] == repCode && b[13] == txPower && b[14] == ccaMode && b[15] == rssi && b[16..] == data
  {
    hide ToBE;
  }

  /** The length and type fields byte by byte. */
  lemma FrameStart(e: Endian, msgType: nat, id: nat, body: seq<Byte>)
    requires msgType < 8 && id < TWO64
    ensures var msg := Frame(e, msgType, id, body);
            && msg[..4] == [|msg| / 256 % 256, |msg| % 256, 0, msgType]
            && (|msg| < 256 ==> msg[..4] == [0, |msg|, 0, msgType]) && |msg| == 18 + |body|
  {
    hide Frame, FromBE;
    FrameFields(e, msgType, id, body);
    var msg := Frame(e, msgType, id, body);
    FieldBytesAre(msg, 0, |msg| % 0x1_0000);
    FieldBytesAre(msg, 2, msgType);
    HighAndLow(|msg|, msg[0], msg[1]);
    HighAndLow(msgType, msg[2], msg[3]);
    hide *;
    assert msg[..4] == [msg[0], msg[1], msg[2], msg[3]];
  }

  lemma FieldBytesAre(msg: seq<Byte>, at: nat, value: nat)
    requires at + 2 <= |msg| && FromBE(msg[at..at + 2]) == value
    ensures var hi: int, lo: int := msg[at], msg[at + 1]; value == 256 * hi + lo
  {
    assert msg[at..at + 2] == [msg[at], msg[at + 1]];
    TwoBytes(Big, msg[at], msg[at + 1], 0);
  }

  lemma HighAndLow(n: nat, hi: Byte, lo: Byte)
    requires 256 * hi + lo == n % 0x1_0000
    ensures hi == n / 256 % 256 && lo == n % 256
  {
    assert n == 0x1_0000 * (n / 0x1_0000) + 256 * hi + lo;
    assert n / 256 == 256 * (n / 0x1_0000) + hi;
  }

  lemma Slices(a: seq<Byte>, b: seq<Byte>, c: seq<Byte>, d: seq<Byte>, f: seq<Byte>, g: seq<Byte>)
    requires |a| == |b| == |f| == 2 && |c| == 4 && |d| == 8
    ensures var s := a + b + c + d + f + g;
            s[..2] == a && s[2..4] == b && s[4..8] == c && s[8..16] == d && s[16..18] == f && s[18..] == g
  {}

  /** A frame passes the receiver's check on a host of the same byte order; on a host of the other byte order it passes
      only if the two bytes of its checksum happen to be equal. */
  lemma FramePasses(sender: Endian, receiver: Endian, msgType: nat, id: nat, body: seq<Byte>)
    ensures var ck := InternetChecksum(sender, Header((HDR_SIZE + |body|) % 0x1_0000, msgType, id, 0) + body);
            Passes(receiver, Frame(sender, msgType, id, body)) <==> sender == receiver || ck / 256 == ck % 256
  {
    hide InternetChecksum, FromBE, Header;
    var blank := Header((HDR_SIZE + |body|) % 0x1_0000, msgType, id, 0) + body;
    SealedShape(sender, blank);
    HeaderIsBlank((HDR_SIZE + |body|) % 0x1_0000, msgType, id, body);
    ByteOrderIndependence(blank);
    SwapFixed(InternetChecksum(Big, blank));
    SwapFixed(InternetChecksum(Little, blank));
    SwapFacts(InternetChecksum(Big, blank));
  }

  lemma HeaderIsBlank(len: nat, msgType: nat, id: nat, body: seq<Byte>)
    ensures Blanked(Header(len, msgType, id, 0) + body) == Header(len, msgType, id, 0) + body
  {
    TwoBytes(Big, 0, 0, 0);
    Slices(ToBE(len, 2), ToBE(msgType, 2), ToBE(INTERFACE_VERSION, 4), ToBE(id, 8), ToBE(0, 2), body);
    Unfield(Header(len, msgType, id, 0) + body);
  }

  lemma Unfield(msg: seq<Byte>)
    requires |msg| >= HDR_SIZE && msg[16..18] == [0, 0]
    ensures Blanked(msg) == msg
  {
    assert msg == msg[..16] + msg[16..18] + msg[18..];
  }

  lemma SwapFixed(w: Word)
    ensures Swap(w) == w <==> w / 256 == w % 256
  {}

  /** The lengths readMsg gets past: the length field must not wrap, and the value of its two bytes in host order must be
      at least 8. On a little-endian host that second condition excludes 256, 512, ..., 1792. */
  predicate LengthReadable(e: Endian, n: nat)
  {
    n < 0x1_0000 && !(e.Little? && n % 256 == 0 && n < 2048)
  }

  /** What readMsg sees in the length field. */
  lemma FrameLength(sender: Endian, e: Endian, msgType: nat, id: nat, body: seq<Byte>, rest: seq<Byte>)
    requires msgType < 8 && id < TWO64
    ensures var len := (HDR_SIZE + |body|) % 0x1_0000;
            var field := (Frame(sender, msgType, id, body) + rest)[..2];
            FromBE(field) == len && Loaded(e, field) == if e.Little? then Swap(len) else len
  {
    var msg := Frame(sender, msgType, id, body);
    FrameFields(sender, msgType, id, body);
    hide Frame, FromBE, Loaded, InternetChecksum;
    assert (msg + rest)[..2] == msg[..2] == [msg[0], msg[1]];
    TwoBytes(e, msg[0], msg[1], 0);
    SwapOf(msg[0], msg[1]);
  }

  lemma ParsedFrame(e: Endian, msgType: nat, id: nat, myId: nat, body: seq<Byte>)
    requires msgType < 8 && id < TWO64
    ensures var msg := Frame(e, msgType, id, body);
            Parse(e, myId, msg) == if id == myId then Dispatch(msgType, Blanked(msg)) else Broken(AssertFailed)
    ensures Blanked(Frame(e, msgType, id, body))[18..] == body
  {
    FrameFields(e, msgType, id, body);
    FramePasses(e, e, msgType, id, body);
    hide Frame, FromBE, InternetChecksum, Dispatch, Passes;
    var msg := Frame(e, msgType, id, body);
    assert Blanked(msg)[18..] == msg[18..];
  }

  /** A frame of readable length is taken from the stream whole, whatever follows it. */
  lemma FrameTaken(e: Endian, msgType: nat, id: nat, myId: nat, body: seq<Byte>, rest: seq<Byte>)
    requires msgType < 8 && id < TWO64 && HDR_SIZE + |body| < 0x1_0000 && LengthReadable(e, HDR_SIZE + |body|)
    ensures var msg := Frame(e, msgType, id, body);
            ReadMsg(e, myId, msg + rest) == Parse(e, myId, msg)
  {
    FrameLength(e, e, msgType, id, body, rest);
    ReadableLength(e, HDR_SIZE + |body|);
    hide Frame, FromBE, Loaded, Parse, ReadMsg, Swap, LengthReadable;
    var msg := Frame(e, msgType, id, body);
    ReadsPrefix(e, myId, msg, rest, FromBE((msg + rest)[..2]), Loaded(e, (msg + rest)[..2]));
  }

  lemma ReadsPrefix(e: Endian, myId: nat, msg: seq<Byte>, rest: seq<Byte>, len: nat, raw: nat)
    requires HDR_SIZE <= |msg| == len && raw >= 8
    requires FromBE((msg + rest)[..2]) == len && Loaded(e, (msg + rest)[..2]) == raw
    ensures ReadMsg(e, myId, msg + rest) == Parse(e, myId, msg)
  {
    hide Parse, FromBE, Loaded;
    assert (msg + rest)[..|msg|] == msg;
  }

  /** Such a frame reaches the node id assert, which decides; with the right id it is dispatched with its type and payload
      intact. */
  lemma ServerReads(e: Endian, msgType: nat, id: nat, myId: nat, body: seq<Byte>, rest: seq<Byte>)
    requires msgType < 8 && id < TWO64 && LengthReadable(e, HDR_SIZE + |body|)
    ensures var msg := Frame(e, msgType, id, body);
            ReadMsg(e, myId, msg + rest) == if id == myId then Dispatch(msgType, Blanked(msg)) else Broken(AssertFailed)
    ensures Blanked(Frame(e, msgType, id, body))[18..] == body
  {
    FrameTaken(e, msgType, id, myId, body, rest);
    ParsedFrame(e, msgType, id, myId, body);
    hide *;
  }

  /** The three fixed-size client messages are understood on every host. */
  lemma RegConRoundTrip(e: Endian, id: nat, os: seq<Byte>, osVersion: seq<Byte>, rest: seq<Byte>)
    requires id < TWO64 && |os| == |osVersion| == 32
    ensures ReadMsg(e, id, Frame(e, MSG_TYPE_REG_CON, id, os + osVersion) + rest) == RegCon(os, osVersion)
    ensures ReadMsg(e, id, Frame(e, MSG_TYPE_DEREG_REQ, id, []) + rest) == DeregReq
    ensures ReadMsg(e, id, Frame(e, MSG_TYPE_CCA_REQ, id, []) + rest) == CcaReq
  {
    ServerReads(e, MSG_TYPE_REG_CON, id, id, os + osVersion, rest);
    ServerReads(e, MSG_TYPE_DEREG_REQ, id, id, [], rest);
    ServerReads(e, MSG_TYPE_CCA_REQ, id, id, [], rest);
    hide Frame, ReadMsg, Blanked;
    var msg := Blanked(Frame(e, MSG_TYPE_REG_CON, id, os + osVersion));
    assert msg[18..50] == msg[18..][..32] == os;
    assert msg[50..82] == msg[18..][32..64] == osVersion;
  }

  /** A data indication is understood exactly when its length is readable. */
  lemma DataIndRoundTrip(e: Endian, id: nat, body: seq<Byte>, rest: seq<Byte>)
    requires id < TWO64 && 16 <= |body| <= 16 + 0xffff
    ensures var msg := Frame(e, MSG_TYPE_TX_DATA_IND, id, body);
            ReadMsg(e, id, msg + rest) == DataInd(Blanked(msg)) <==> LengthReadable(e, HDR_SIZE + |body|)
  {
    var msg := Frame(e, MSG_TYPE_TX_DATA_IND, id, body);
    if LengthReadable(e, HDR_SIZE + |body|) {
      ServerReads(e, MSG_TYPE_TX_DATA_IND, id, id, body, rest);
    } else {
      FrameLength(e, e, MSG_TYPE_TX_DATA_IND, id, body, rest);
      hide Frame, FromBE, Loaded, Passes;
    }
  }

  /** A complete message of unreadable length stops the simulator at the length assert: on a little-endian host a
      transmission of 222 bytes, 256 on the wire, does. */
  lemma UnreadableLength(e: Endian, msgType: nat, id: nat, body: seq<Byte>, rest: seq<Byte>)
    requires msgType < 8 && id < TWO64 && HDR_SIZE + |body| < 0x1_0000 && !LengthReadable(e, HDR_SIZE + |body|)
    ensures ReadMsg(e, id, Frame(e, msgType, id, body) + rest) == Broken(AssertFailed)
    ensures !LengthReadable(Little, DATA_IND_SIZE + 222)
  {
    FrameLength(e, e, msgType, id, body, rest);
    ReadableLength(e, HDR_SIZE + |body|);
    hide Frame, FromBE, Loaded, Parse, Swap, LengthReadable;
  }

  lemma ReadableLength(e: Endian, n: nat)
    requires HDR_SIZE <= n < 0x1_0000
    ensures n % 0x1_0000 == n
    ensures LengthReadable(e, n) <==> (if e.Little? then Swap(n) else n) >= 8
  {}

  /** Every message of the simulator is understood by a client of the same byte order, which takes its node id from the
      registration request only. */
  lemma ClientUnderstands(e: Endian, msgType: nat, id: nat, body: seq<Byte>, current: nat)
    requires msgType in {MSG_TYPE_REG_REQ, MSG_TYPE_DEREG_CON, MSG_TYPE_CCA_CON, MSG_TYPE_TX_DONE_IND} && id < TWO64
    ensures ClientRead(e, current, Frame(e, msgType, id, body)) ==
            Heard(if msgType == MSG_TYPE_REG_REQ then id else current, msgType, body)
  {
    FrameFields(e, msgType, id, body);
    FramePasses(e, e, msgType, id, body);
  }

  /** Registration: the id a client takes from the request is the only one the simulator's assert lets through in the
      confirm. */
  lemma Handshake(e: Endian, id: nat, current: nat, used: nat, os: seq<Byte>, osVersion: seq<Byte>)
    requires id < TWO64 && used < TWO64 && |os| == |osVersion| == 32
    ensures ClientRead(e, current, Frame(e, MSG_TYPE_REG_REQ, id, [])) == Heard(id, MSG_TYPE_REG_REQ, [])
    ensures ReadMsg(e, id, Frame(e, MSG_TYPE_REG_CON, used, os + osVersion)) ==
            if used == id then RegCon(os, osVersion) else Broken(AssertFailed)
  {
    hide Frame, ReadMsg, ClientRead;
    ClientUnderstands(e, MSG_TYPE_REG_REQ, id, [], current);
    var msg := Frame(e, MSG_TYPE_REG_CON, used, os + osVersion);
    assert msg + [] == msg;
    ServerReads(e, MSG_TYPE_REG_CON, used, id, os + osVersion, []);
    RegConRoundTrip(e, id, os, osVersion, []);
  }
}
