/** The objects of a node: its packet, and the node with its state, its two timers and its packet in flight. */
module DeviceNodes {
  import opened Bytes
  import opened Checksum
  import opened Wire
  import opened Messages
  import opened Protocol
  import opened Timespec

  class NetSimPacket {
    const fromNode: DeviceNode
    var pktBuffer: seq<Byte>
    var collision: bool
    var txDoneResult: int

    constructor (dataInd: seq<Byte>, fromNode: DeviceNode)
      ensures this.fromNode == fromNode && View() == Packet(dataInd, false, 0)
    {
      this.fromNode := fromNode;
      pktBuffer, collision, txDoneResult := dataInd, false, 0;
    }

    ghost function View(): Packet
      reads this
    {
      Packet(pktBuffer, collision, txDoneResult)
    }

    method SetCollided(val: bool)
      modifies this
      ensures View() == old(View()).(collision := val)
    {
      collision := val;
    }

    method SetTxDoneResult(result: int)
      modifies this
      ensures View() == old(View()).(txDoneResult := result)
    {
      txDoneResult := result;
    }

    method SetRSSI(rssi: Byte)
      requires |pktBuffer| >= DATA_IND_SIZE
      modifies this
      ensures View() == old(View()).(buf := old(pktBuffer)[RSSI_OFFSET := rssi])
    {
      pktBuffer := pktBuffer[RSSI_OFFSET := rssi];
    }

    /** The length of the 802.15.4 frame, as the sender announced it. */
    method PktbufSize(e: Endian) returns (size: nat)
      requires |pktBuffer| >= DATA_IND_SIZE
      ensures size == FromBE(pktBuffer[PSDU_LEN_OFFSET..PSDU_LEN_OFFSET + 2])
    {
      var field := pktBuffer[PSDU_LEN_OFFSET..PSDU_LEN_OFFSET + 2];
      NtohLoaded(e, field);
      size := Hton(e, Loaded(e, field), 2);
    }

    /** The checksum field is overwritten, not cleared first. */
    method GenerateChecksum(e: Endian)
      requires HDR_SIZE <= |pktBuffer| < 0x1_0000
      modifies this
      ensures View() == old(View()).(buf := Sealed(e, old(pktBuffer)))
    {
      OverflowBound(e, |pktBuffer|);
      var cksum := Checksum.GenerateChecksum(e, pktBuffer);
      FieldBytes(e, cksum);
      pktBuffer := pktBuffer[..16] + Stored(e, Hton(e, cksum, 2), 2) + pktBuffer[18..];
    }
  }

  lemma FieldBytes(e: Endian, w: Word)
    ensures Stored(e, Hton(e, w, 2), 2) == ToBE(w, 2)
  {
    Powers();
    StoredHton(e, w, 2);
  }

  /** What timer_gettime leaves: seconds and nanoseconds still to go, both zero once the instant has come. */
  function TimeLeft(t: Timer, now: nat): TimeVal
    requires t.On?
  {
    if t.deadline <= now then TimeVal(0, 0)
    else TimeVal((t.deadline - now) / BILLION, (t.deadline - now) % BILLION)
  }

  /** A timer armed with ms milliseconds expires exactly ms * 1000000 ns later, and with zero at the next nanosecond. */
  lemma ExpiresAfter(now: nat, ms: nat, later: nat)
    ensures Expired(Started(now, ms), later) <==> later >= now + if ms == 0 then 1 else ms * 1_000_000
  {
    assert ms == ms / 1000 * 1000 + ms % 1000;
  }

  class DeviceNode {
    const id: NodeId
    var curState: Phase
    var regTimer: Timer
    var txTimer: Timer
    var txPkt: NetSimPacket?

    /** The constructor sends the registration request and starts the registration timer. */
    constructor (id: NodeId, now: nat)
      ensures this.id == id && txPkt == null && Shows(NewNode(now))
      ensures curState == Registering && regTimer == On(now + 120_000_000_000) && txTimer == Off
    {
      this.id := id;
      curState, regTimer, txTimer, txPkt := Registering, On(now + REGISTRATION_NS), Off, null;
    }

    /** The node has the value n. Its packet, whose length came from a 16-bit field, names the node that owns it. */
    ghost predicate Shows(n: Node)
      reads this, txPkt
    {
      && n.phase == curState && n.regTimer == regTimer && n.txTimer == txTimer
      && (if txPkt == null then n.txPkt.NoPacket?
          else n.txPkt == InFlight(txPkt.View()) && txPkt.fromNode == this && |txPkt.pktBuffer| < 0x1_0000)
    }

    method HasRegTimerExpired(now: nat) returns (expired: bool)
      requires regTimer.On?
      ensures expired <==> Expired(regTimer, now)
    {
      var left := TimeLeft(regTimer, now);
      expired := left.sec == 0 && left.nsec == 0;
    }

    method HasTxTimerExpired(now: nat) returns (expired: bool)
      requires txTimer.On?
      ensures expired <==> Expired(txTimer, now)
    {
      var left := TimeLeft(txTimer, now);
      expired := left.sec == 0 && left.nsec == 0;
    }

    /** The relative time of timer_settime is given in seconds and nanoseconds. */
    method StartTxTimer(now: nat, ms: nat)
      requires txTimer.Off?
      modifies this`txTimer
      ensures txTimer == On(now + if ms == 0 then 1 else ms * 1_000_000)
    {
      var value := if ms == 0 then TimeVal(0, 1) else TimeVal(ms / 1000, ms % 1000 * 1_000_000);
      txTimer := On(now + (value.sec * BILLION + value.nsec));
    }

    /** RegisteringState::handleRegistrationConfirm, without the medium's part. */
    method LeaveRegistering()
      requires curState.Registering?
      modifies this`regTimer, this`curState
      ensures regTimer == Off && curState == Active
    {
      regTimer := Off;
      curState := Active;
    }

    /** ActiveState::handleTxRequest, without the medium's part. */
    method BeginTx(dataPkt: NetSimPacket, now: nat)
      requires curState.Active? && txTimer.Off?
      modifies this`txTimer, this`txPkt, this`curState
      ensures curState == Tx && txPkt == dataPkt
      ensures txTimer == On(now + if IsAck(dataPkt.pktBuffer) then 1 else 4_000_000)
    {
      if IsAck(dataPkt.pktBuffer) {
        StartTxTimer(now, 0);
      } else {
        StartTxTimer(now, TIME_ON_WIRE_MS);
      }
      txPkt := dataPkt;
      curState := Tx;
    }

    /** TxState::handleTxTimerExpired. */
    method HandleTxTimerExpired()
      requires curState.Tx? && txPkt != null
      modifies this`txTimer, this`curState, txPkt
      ensures curState == Active && txTimer == Off
      ensures txPkt.View() == old(txPkt.View()).(txDoneResult := if old(txPkt.collision) then 1 else 0)
    {
      txPkt.SetTxDoneResult(TX_DONE_OK);
      txTimer := Off;
      if txPkt.collision {
        txPkt.SetTxDoneResult(TX_DONE_COLLIDED);
      }
      curState := Active;
    }
  }
}
