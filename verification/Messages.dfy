/** The messages themselves: what each end makes of the bytes it receives, and how every sender builds a message. */
module Messages {
  import opened Bytes
  import opened Checksum
  import opened Wire

  /** What DeviceNode::readMsg does with a message: drop it with a warning, fail, or call a handler. */
  datatype Input =
    | Dropped
    | Broken(fault: Fault)
    | RegCon(os: seq<Byte>, osVersion: seq<Byte>)
    | DeregReq
    | CcaReq
    | DataInd(msg: seq<Byte>)

  /** The switch on the message type. A handler given less than its message structure reads past the buffer. */
  function Dispatch(msgType: nat, msg: seq<Byte>): Input
  {
    if msgType == MSG_TYPE_REG_CON then
      if |msg| < REG_CON_SIZE then Broken(Undefined) else RegCon(msg[18..50], msg[50..82])
    else if msgType == MSG_TYPE_DEREG_REQ then DeregReq
    else if msgType == MSG_TYPE_CCA_REQ then CcaReq
    else if msgType == MSG_TYPE_TX_DATA_IND then
      if |msg| < DATA_IND_SIZE then Broken(Undefined) else DataInd(msg)
    else Dropped
  }

  /** A complete message: checksum first, then the assert on the node id, then the interface version. */
  function Parse(e: Endian, myId: nat, msg: seq<Byte>): Input
    requires |msg| >= HDR_SIZE
  {
    if !Passes(e, msg) then Dropped
    else if FromBE(msg[8..16]) != myId then Broken(AssertFailed)
    else if FromBE(msg[4..8]) != INTERFACE_VERSION then Dropped
    else Dispatch(FromBE(msg[2..4]), Blanked(msg))
  }

  /** DeviceNode::readMsg on the bytes waiting in the socket. An assert wants the two bytes of the length; the
      next compares the length with sizeof(hdr), the size of a pointer, before converting it from network order. */
  function ReadMsg(e: Endian, myId: nat, stream: seq<Byte>): Input
  {
    if |stream| < 2 then Broken(AssertFailed)
    else if Loaded(e, stream[..2]) < 8 then Broken(AssertFailed)
    else
      var len := FromBE(stream[..2]);
      if len < HDR_SIZE || |stream| < len then Broken(Undefined) else Parse(e, myId, stream[..len])
  }

  /** readMsg itself: it fills a buffer, zeroes the checksum field in place and rewrites the length field. */
  method ReceiveMsg(e: Endian, myId: nat, stream: seq<Byte>) returns (input: Input)
    ensures input == ReadMsg(e, myId, stream)
  {
    hide Loaded, FromBE, Parse;
    if |stream| < 2 {
      return Broken(AssertFailed);
    }
    var raw, len := ReceiveLength(e, stream);
    if raw < 8 {
      return Broken(AssertFailed);
    }
    if len < HDR_SIZE || |stream| < len {
      return Broken(Undefined);
    }
    assert stream[..len][..2] == stream[..2];
    input := CheckMsg(e, myId, stream[..len]);
  }

  /** The length as the first two bytes hold it, and converted to host order. */
  method ReceiveLength(e: Endian, stream: seq<Byte>) returns (raw: nat, len: nat)
    requires |stream| >= 2
    ensures raw == Loaded(e, stream[..2]) && len == FromBE(stream[..2])
  {
    raw := Loaded(e, stream[..2]);
    NtohLoaded(e, stream[..2]);
    TwoBytes(e, stream[0], stream[1], 0);
    assert stream[..2] == [stream[0], stream[1]];
    len := Hton(e, raw, 2);
  }

  /** The second half of readMsg, once the whole message is in its buffer. */
  method CheckMsg(e: Endian, myId: nat, msg: seq<Byte>) returns (input: Input)
    requires |msg| >= HDR_SIZE && FromBE(msg[..2]) == |msg|
    ensures input == Parse(e, myId, msg)
  {
    hide FromBE, ToBE, Dispatch, Hton, Pow256;
    var msgData := new Byte[|msg|](i requires 0 <= i < |msg| => msg[i]);
    assert msgData[..] == msg;
    var rxCksum := FromBE(msgData[16..18]);
    LengthFits(msg);
    ClearChecksum(e, msgData, |msg|);
    var checked := msgData[..];
    OverflowBound(e, |msg|);
    var calculated := GenerateChecksum(e, checked);
    assert checked[2..4] == msg[2..4] && checked[4..8] == msg[4..8] && checked[8..16] == msg[8..16];
    if calculated != rxCksum {
      return Dropped;
    }
    if FromBE(checked[8..16]) != myId {
      return Broken(AssertFailed);
    }
    if FromBE(checked[4..8]) != INTERFACE_VERSION {
      return Dropped;
    }
    input := Dispatch(FromBE(checked[2..4]), checked);
  }

  /** hdr->cksum = 0 and hdr->len = htons(len), in place. */
  method ClearChecksum(e: Endian, msgData: array<Byte>, len: nat)
    requires msgData.Length >= HDR_SIZE && FromBE(msgData[..2]) == len
    modifies msgData
    ensures msgData[..] == Blanked(old(msgData[..]))
  {
    assert msgData[..][..2] == msgData[..2];
    StoredHton2(e, len, msgData[..]);
    var field := Stored(e, Hton(e, len, 2), 2);
    msgData[16], msgData[17] := 0, 0;
    msgData[0], msgData[1] := field[0], field[1];
  }

  lemma LengthFits(msg: seq<Byte>)
    requires |msg| >= 2 && FromBE(msg[..2]) == |msg|
    ensures |msg| < 0x1_0000
  {
    StoredHton2(Big, |msg|, msg);
  }

  /** Storing htons(len) puts back the two length bytes that were received. */
  lemma StoredHton2(e: Endian, len: nat, stream: seq<Byte>)
    requires |stream| >= 2 && len == FromBE(stream[..2])
    ensures Stored(e, Hton(e, len, 2), 2) == stream[..2] && len < 0x1_0000
  {
    FromBEBound(stream[..2]);
    assert Pow256(2) == 256 * Pow256(1) && Pow256(1) == 256 * Pow256(0);
    StoredHton(e, len, 2);
    ToFromBE(stream[..2]);
  }

  /** What a client makes of a message: the node id it now uses, the type and the payload. */
  datatype Heard = Heard(nodeId: nat, msgType: nat, body: seq<Byte>) | Refused(fault: Fault)

  /** NodeSim::readMsg on one received message. */
  function ClientRead(e: Endian, nodeId: nat, msg: seq<Byte>): Heard
  {
    if |msg| < HDR_SIZE then Refused(Undefined)
    else if !Passes(e, msg) then Refused(AssertFailed)
    else
      var t := FromBE(msg[2..4]);
      if t == MSG_TYPE_REG_REQ then Heard(FromBE(msg[8..16]), t, msg[18..])
      else if t in {MSG_TYPE_DEREG_REQ, MSG_TYPE_DEREG_CON, MSG_TYPE_CCA_CON, MSG_TYPE_TX_DATA_IND, MSG_TYPE_TX_DONE_IND}
      then Heard(nodeId, t, msg[18..])
      else Refused(Thrown)
  }

  // Building messages

  /** The field-by-field construction every sender performs: htonX each header field, zero the checksum field, store
      htons of the checksum of the whole message. */
  method BuildFrame(e: Endian, msgType: nat, id: nat, body: seq<Byte>) returns (msg: seq<Byte>)
    requires msgType < 8 && id < TWO64
    requires Sum(Words(e, Header((HDR_SIZE + |body|) % 0x1_0000, msgType, id, 0) + body)) <= INT_MAX
    ensures msg == Frame(e, msgType, id, body)
  {
    var len := (HDR_SIZE + |body|) % 0x1_0000;
    TwoBytes(e, 0, 0, len);
    TwoBytes(e, 0, 0, msgType);
    var hdr := PktHdr(Hton(e, len, 2), 0, 0, 0, 0);
    hdr := hdr.(msgType := Hton(e, msgType, 2));
    hdr := hdr.(version := Hton(e, INTERFACE_VERSION, 4));
    hdr := hdr.(nodeId := Hton(e, id, 8));
    HeaderImage(e, hdr, len, msgType, id, 0);
    var cksum := GenerateChecksum(e, Image(e, hdr) + body);
    TwoBytes(e, 0, 0, cksum);
    hdr := hdr.(cksum := Hton(e, cksum, 2));
    HeaderImage(e, hdr, len, msgType, id, cksum);
    msg := Image(e, hdr) + body;
    SealedHeader(e, len, msgType, id, body);
  }

  lemma HeaderImage(e: Endian, h: PktHdr, len: Word, msgType: Word, id: nat, cksum: Word)
    requires id < TWO64
    requires h.len == Hton(e, len, 2) && h.msgType == Hton(e, msgType, 2) && h.version == Hton(e, INTERFACE_VERSION, 4)
    requires h.nodeId == Hton(e, id, 8) && (h.cksum == Hton(e, cksum, 2) || h.cksum == cksum == 0)
    ensures Image(e, h) == Header(len, msgType, id, cksum)
  {
    Powers();
    StoredHton(e, len, 2);
    StoredHton(e, msgType, 2);
    StoredHton(e, INTERFACE_VERSION, 4);
    StoredHton(e, id, 8);
    StoredHton(e, cksum, 2);
    TwoBytes(e, 0, 0, 0);
  }

  lemma Powers()
    ensures Pow256(2) == 0x1_0000 && Pow256(4) == 0x1_0000_0000 && Pow256(8) == TWO64
  {
    assert Pow256(1) == 256 * Pow256(0);
    assert Pow256(3) == 256 * Pow256(2) && Pow256(5) == 256 * Pow256(4);
    assert Pow256(7) == 256 * Pow256(6) && Pow256(6) == 256 * Pow256(5);
  }

  lemma SealedHeader(e: Endian, len: Word, msgType: nat, id: nat, body: seq<Byte>)
    ensures var blank := Header(len, msgType, id, 0) + body;
            Sealed(e, blank) == Header(len, msgType, id, InternetChecksum(e, blank)) + body
  {
    var blank := Header(len, msgType, id, 0) + body;
    var front := ToBE(len, 2) + ToBE(msgType, 2) + ToBE(INTERFACE_VERSION, 4) + ToBE(id, 8);
    assert blank[..16] == front;
    assert blank[18..] == body;
  }
}
