/** The shared medium as a function of its inputs: node state machines, CCA and Tx lists, registration, and the rounds of
    the medium thread. */
module Protocol {
  import opened Bytes
  import opened Wire
  import opened Messages
  import opened Timespec

  type NodeId = nat

  const TX_DONE_OK := 0
  const TX_DONE_COLLIDED := 1
  /** REGISTRATION_TIME, 120 s, and getTimeOnWire, 4 ms. */
  const REGISTRATION_NS := 120 * BILLION
  const TIME_ON_WIRE_MS := 4
  const IDLE_POLL_MS := 1000
  const BUSY_POLL_MS := 1

  datatype Kind = Powerline | Wireless
  datatype Control = STOPPED | IDLE | TX_802514_FRAME | STOPPING
  /** The three IDeviceNodeState classes. */
  datatype Phase = Registering | Active | Tx
  /** A POSIX one-shot timer: the instant, in nanoseconds, from which timer_gettime reports nothing left. */
  datatype Timer = Off | On(deadline: nat)
  datatype Packet = Packet(buf: seq<Byte>, collision: bool, txDoneResult: int)
  datatype TxSlot = NoPacket | InFlight(pkt: Packet)
  datatype Node = Node(phase: Phase, regTimer: Timer, txTimer: Timer, txPkt: TxSlot)
  datatype Stats = Stats(ok: nat, collided: nat, failed: nat)

  /** What an observer of the sockets, the multicast group and the clock can record, in order. */
  datatype Act =
    | Joined(id: NodeId, at: nat)
    | Confirmed(id: NodeId)
    | DeregTold(id: NodeId)
    | Departed(id: NodeId)
    | TimedOut(ids: set<NodeId>, readings: map<NodeId, nat>)
    | CcaAsked(id: NodeId)
    | CcaTold(id: NodeId, clear: bool)
    | TxBegan(id: NodeId, msg: seq<Byte>, at: nat)
    | Checked
    | TxEnded(id: NodeId, result: int, at: nat)
    | Multicast(id: NodeId, frame: seq<Byte>)
    | Polled(ms: nat)

  /** heap holds the live DeviceNode objects; the two maps of the source are keyed by the same ids. */
  datatype Medium = Medium(
    kind: Kind, host: Endian, state: Control, now: nat, curTime: TimeVal,
    heap: map<NodeId, Node>, regList: set<NodeId>, nodeHash: set<NodeId>,
    ccaList: seq<NodeId>, txList: seq<NodeId>, stats: Stats, fault: Fault, log: seq<Act>)

  /** What epoll, the accept thread and the clock can do while the medium polls. */
  datatype Event =
    | Accept(id: NodeId)
    | Recv(id: NodeId, bytes: seq<Byte>)
    | Hangup(id: NodeId)
    | Unblock
    | Elapse(ns: nat)

  /** The clock during a sweep that takes `total` ns: each node's timer is read at its own offset. */
  datatype Window = Window(total: nat, at: map<NodeId, nat>)
  {
    function Offset(id: NodeId): (t: nat)
      ensures t <= total
    {
      if id in at && at[id] <= total then at[id] else total
    }
  }

  /** One poll and the timer sweeps that follow it. */
  datatype RoundInput = RoundInput(batch: seq<Event>, txWindow: Window, regWindow: Window)

  function Initial(kind: Kind, host: Endian, now: nat, curTime: TimeVal): Medium
  {
    Medium(kind, host, IDLE, now, curTime, map[], {}, {}, [], [], Stats(0, 0, 0), Sound, [])
  }

  function Emit(m: Medium, a: Act): Medium
  {
    m.(log := m.log + [a])
  }

  function Fail(m: Medium, f: Fault): Medium
  {
    m.(fault := f)
  }

  predicate Running(m: Medium)
  {
    m.fault.Sound? && (m.state.IDLE? || m.state.TX_802514_FRAME?)
  }

  // Timers

  /** DeviceNodeTimer::start(ms) at time now; zero means one nanosecond. */
  function Started(now: nat, ms: nat): Timer
  {
    On(now + if ms == 0 then 1 else ms / 1000 * BILLION + ms % 1000 * 1_000_000)
  }

  predicate Expired(t: Timer, now: nat)
    requires t.On?
  {
    t.deadline <= now
  }

  // Messages from nodes

  function NewNode(now: nat): Node
  {
    Node(Registering, On(now + REGISTRATION_NS), Off, NoPacket)
  }

  /** A connection: the constructor of the node, which starts its registration timer, then addNode. */
  function AcceptNode(m: Medium, id: NodeId): Medium
  {
    if id in m.heap then m
    else Emit(m.(heap := m.heap[id := NewNode(m.now)], regList := m.regList + {id}), Joined(id, m.now))
  }

  function Confirm(m: Medium, id: NodeId): Medium
    requires id in m.heap
  {
    if !m.heap[id].phase.Registering? then Fail(m, Thrown)
    else if id !in m.regList then Fail(m, AssertFailed)
    else
      var n := m.heap[id].(regTimer := Off, phase := Active);
      Emit(m.(heap := m.heap[id := n], regList := m.regList - {id}, nodeHash := m.nodeHash + {id}), Confirmed(id))
  }

  /** deregisterNode. Deleting a node that is still on one of the lists leaves a dangling pointer there. */
  function Release(m: Medium, id: NodeId): Medium
    requires id in m.heap
  {
    if id in m.ccaList || id in m.txList then Fail(m, Undefined)
    else if id in m.regList then Emit(m.(heap := m.heap - {id}, regList := m.regList - {id}), Departed(id))
    else if id !in m.nodeHash then Fail(m, AssertFailed)
    else Emit(m.(heap := m.heap - {id}, nodeHash := m.nodeHash - {id}), Departed(id))
  }

  /** handleCcaRequest: the list is extended before the state is asked. Only the Registering state refuses: the Tx
      state's handler has another signature and overrides nothing. */
  function AskCca(m: Medium, id: NodeId): Medium
    requires id in m.heap
  {
    var m' := m.(ccaList := m.ccaList + [id]);
    if m.heap[id].phase.Registering? then Fail(m', Thrown) else Emit(m', CcaAsked(id))
  }

  /** NetSimPacket::isAck: the low three bits of the first byte of the buffer. */
  predicate IsAck(msg: seq<Byte>)
  {
    |msg| > 0 && msg[0] % 8 == 2
  }

  function Transmit(m: Medium, id: NodeId, msg: seq<Byte>): Medium
    requires id in m.heap
  {
    var n := m.heap[id];
    if !n.phase.Active? then Fail(m, Thrown)
    else if n.txTimer.On? then Fail(m, AssertFailed)
    else
      var timer := Started(m.now, if IsAck(msg) then 0 else TIME_ON_WIRE_MS);
      var n' := Node(Tx, n.regTimer, timer, InFlight(Packet(msg, false, 0)));
      Emit(m.(heap := m.heap[id := n'], txList := m.txList + [id]), TxBegan(id, msg, m.now))
  }

  function Handle(m: Medium, id: NodeId, input: Input): Medium
    requires id in m.heap
  {
    match input
    case Dropped => m
    case Broken(f) => Fail(m, f)
    case RegCon(_, _) => Confirm(m, id)
    case DeregReq => Release(Emit(m, DeregTold(id)), id)
    case CcaReq => AskCca(m, id)
    case DataInd(msg) => Transmit(m, id, msg)
  }

  /** epoll reports only sockets of live nodes, so events for other ids do not occur. */
  function HandleEvent(m: Medium, e: Event): Medium
  {
    match e
    case Accept(id) => AcceptNode(m, id)
    case Recv(id, bytes) => if id in m.heap then Handle(m, id, ReadMsg(m.host, id, bytes)) else m
    case Hangup(id) => if id in m.heap then Release(m, id) else m
    case Unblock => m.(state := STOPPING)
    case Elapse(ns) => m.(now := m.now + ns)
  }

  /** processPollerEvents: the loop ends at the unblocker, and at a throw. */
  function HandleEvents(m: Medium, batch: seq<Event>): Medium
    decreases |batch|
  {
    if batch == [] || !Running(m) then m else HandleEvents(HandleEvent(m, batch[0]), batch[1..])
  }

  function Interval(m: Medium, ms: nat, batch: seq<Event>): Medium
  {
    HandleEvents(Emit(m.(curTime := AddMs(m.curTime, ms)), Polled(ms)), batch)
  }

  // The rest of a round

  function ProcessCca(m: Medium): Medium
    decreases |m.ccaList|
  {
    if m.ccaList == [] then m
    else
      var id := m.ccaList[0];
      var m' := m.(ccaList := m.ccaList[1..]);
      if id !in m.heap then Fail(m', Undefined) else ProcessCca(Emit(m', CcaTold(id, m.state.IDLE?)))
  }

  function Marked(n: Node): Node
  {
    if n.txPkt.InFlight? then n.(txPkt := InFlight(n.txPkt.pkt.(collision := true))) else n
  }

  /** txCollisionCheck: a powerline marks every packet in the air when there is more than one; wireless does nothing. */
  function CollisionCheck(m: Medium): Medium
  {
    var m' := Emit(m, Checked);
    if m.kind.Powerline? && |m.txList| > 1 then
      if exists id :: id in m.txList && (id !in m.heap || m.heap[id].txPkt.NoPacket?) then Fail(m', Undefined)
      else m'.(heap := map id | id in m.heap :: if id in m.txList then Marked(m.heap[id]) else m.heap[id])
    else m'
  }

  function Without(s: seq<NodeId>, id: NodeId): seq<NodeId>
  {
    if s == [] then [] else if s[0] == id then s[1..] else [s[0]] + Without(s[1..], id)
  }

  /** txPacket: the frame put on the multicast group. */
  function Outgoing(host: Endian, buf: seq<Byte>): seq<Byte>
    requires |buf| >= DATA_IND_SIZE
  {
    Sealed(host, buf[RSSI_OFFSET := 127])
  }

  /** The psdu_len field claims more bytes than the message has. */
  predicate Overstates(buf: seq<Byte>)
    requires |buf| >= DATA_IND_SIZE
  {
    FromBE(buf[PSDU_LEN_OFFSET..PSDU_LEN_OFFSET + 2]) > |buf| - DATA_IND_SIZE
  }

  /** One packet found expired at the given instant: Tx Done, multicast when it did not collide, statistics, removal. */
  function Completed(m: Medium, id: NodeId, pkt: Packet, at: nat): Medium
    requires id in m.heap && (pkt.collision || |pkt.buf| >= DATA_IND_SIZE)
  {
    var n := m.heap[id];
    var done := m.(heap := m.heap[id := Node(Active, n.regTimer, Off, NoPacket)], txList := Without(m.txList, id));
    if pkt.collision then
      Emit(done.(stats := m.stats.(collided := m.stats.collided + 1)), TxEnded(id, TX_DONE_COLLIDED, at))
    else
      Emit(Emit(done.(stats := m.stats.(ok := m.stats.ok + 1)), TxEnded(id, TX_DONE_OK, at)),
           Multicast(id, Outgoing(m.host, pkt.buf)))
  }

  /** After the multicast txPacket dumps psdu_len bytes of the buffer, whatever its size. */
  function Complete(m: Medium, id: NodeId, pkt: Packet, at: nat): Medium
    requires id in m.heap
  {
    if !pkt.collision && |pkt.buf| < DATA_IND_SIZE then Fail(Emit(m, TxEnded(id, TX_DONE_OK, at)), Undefined)
    else if !pkt.collision && Overstates(pkt.buf) then Fail(Completed(m, id, pkt, at), Undefined)
    else Completed(m, id, pkt, at)
  }

  /** One step of processTxList, with its asserts and the throws of the state classes. */
  function TxVisit(m: Medium, id: NodeId, w: Window): Medium
  {
    if id !in m.heap then Fail(m, Undefined)
    else
      var n := m.heap[id];
      if n.txTimer.Off? then Fail(m, AssertFailed)
      else if !Expired(n.txTimer, m.now + w.Offset(id)) then m
      else if n.txPkt.NoPacket? then Fail(m, AssertFailed)
      else if !n.phase.Tx? then Fail(m, Thrown)
      else Complete(m, id, n.txPkt.pkt, m.now + w.Offset(id))
  }

  function TxSweep(m: Medium, ids: seq<NodeId>, w: Window): Medium
    decreases |ids|
  {
    if ids == [] || !m.fault.Sound? then m else TxSweep(TxVisit(m, ids[0], w), ids[1..], w)
  }

  function ProcessTx(m: Medium, w: Window): Medium
  {
    var m' := TxSweep(m, m.txList, w);
    m'.(now := m'.now + w.total)
  }

  /** The instant at which each node's timer is read in a sweep that starts at now. */
  function Readings(ids: set<NodeId>, now: nat, w: Window): map<NodeId, nat>
  {
    map id | id in ids :: now + w.Offset(id)
  }

  /** checkNodeRegistrationTimeout. */
  function SweepRegs(m: Medium, w: Window): Medium
  {
    if exists id :: id in m.regList && (id !in m.heap || m.heap[id].regTimer.Off?) then Fail(m, AssertFailed)
    else
      var dead := set id | id in m.regList && Expired(m.heap[id].regTimer, m.now + w.Offset(id));
      if exists id :: id in dead && !m.heap[id].phase.Registering? then Fail(m, Thrown)
      else Emit(m.(heap := m.heap - dead, regList := m.regList - dead, now := m.now + w.total),
                TimedOut(dead, Readings(m.regList, m.now, w)))
  }

  /** The end of the outer loop body of run(). */
  function EndBusy(m: Medium, w: Window): Medium
  {
    SweepRegs(m.(state := IDLE), w)
  }

  /** One pass of the outer loop up to the inner loop. */
  function IdleRound(m: Medium, r: RoundInput): Medium
  {
    var m1 := Interval(m, IDLE_POLL_MS, r.batch);
    if !m1.fault.Sound? then m1
    else if m1.state.STOPPING? then m1.(state := STOPPED)
    else
      var m2 := ProcessCca(if m1.txList != [] then m1.(state := TX_802514_FRAME) else m1);
      if m2.fault.Sound? && m2.txList == [] then EndBusy(m2, r.regWindow) else m2
  }

  /** One pass of the inner loop. */
  function BusyRound(m: Medium, r: RoundInput): Medium
  {
    var m1 := Interval(m, BUSY_POLL_MS, r.batch);
    if !m1.fault.Sound? then m1
    else if m1.state.STOPPING? then m1.(state := STOPPED)
    else
      var m2 := ProcessCca(m1);
      if !m2.fault.Sound? then m2
      else
        var m3 := CollisionCheck(m2);
        if !m3.fault.Sound? then m3
        else
          var m4 := ProcessTx(m3, r.txWindow);
          if m4.fault.Sound? && m4.txList == [] then EndBusy(m4, r.regWindow) else m4
  }

  function Round(m: Medium, r: RoundInput): Medium
  {
    if !Running(m) then m else if m.state.IDLE? then IdleRound(m, r) else BusyRound(m, r)
  }

  /** The run up to the last of the given rounds. */
  function Run(m: Medium, rounds: seq<RoundInput>): Medium
  {
    if rounds == [] then m else Round(Run(m, rounds[..|rounds| - 1]), rounds[|rounds| - 1])
  }
}
