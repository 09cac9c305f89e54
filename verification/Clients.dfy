/** The clients' side of the protocol: what a client may send, judged by its own sends and what it has received, over
    channels that keep order; and the proof that scripts whose clients are so conform. */
module Clients {
  import opened Bytes
  import opened Wire
  import opened Messages
  import opened Protocol
  import opened Observer
  import opened Invariant
  import opened Runs
  import opened Traces
  import opened Clock
  import N = NodeSimulator
  import Timespec

  /** What a client puts into its socket, with closing it as the last. */
  datatype Parcel =
    | RegConfirm(os: seq<Byte>, osVersion: seq<Byte>)
    | CcaRequest
    | Data(source: nat, psdu: seq<Byte>, extra: Word, repCode: Byte, txPower: Byte, ccaMode: Byte)
    | DeregRequest
    | Close
  {
    predicate Leaving() { DeregRequest? || Close? }
  }

  /** The bytes of the senders of NodeSim, under the node id in use. */
  function Encode(e: Endian, id: nat, p: Parcel): seq<Byte>
  {
    match p
    case RegConfirm(os, osVersion) => Frame(e, MSG_TYPE_REG_CON, id, os + osVersion)
    case CcaRequest => Frame(e, MSG_TYPE_CCA_REQ, id, [])
    case Data(source, psdu, extra, repCode, txPower, ccaMode) =>
      Frame(e, MSG_TYPE_TX_DATA_IND, id, N.DataIndBody(source, |psdu| % 0x1_0000, extra, repCode, txPower, ccaMode, 0, psdu))
    case DeregRequest => Frame(e, MSG_TYPE_DEREG_REQ, id, [])
    case Close => []
  }

  // What the simulator has sent to a node

  predicate Reaches(a: Act, id: NodeId)
  {
    (a.Joined? || a.CcaTold? || a.TxEnded? || a.DeregTold?) && a.id == id
  }

  /** The simulator's messages on id's present connection, oldest first. */
  function Inbox(log: seq<Act>, id: NodeId): seq<Act>
  {
    if log == [] then []
    else
      var a := log[|log| - 1];
      if Joins(a, id) then [a]
      else Inbox(log[..|log| - 1], id) + if Reaches(a, id) then [a] else []
  }

  function MessageOf(e: Endian, a: Act): seq<Byte>
  {
    match a
    case Joined(id, _) => Frame(e, MSG_TYPE_REG_REQ, id, [])
    case CcaTold(id, clear) => Frame(e, MSG_TYPE_CCA_CON, id, [if clear then 1 else 0])
    case TxEnded(id, result, _) => Frame(e, MSG_TYPE_TX_DONE_IND, id, [result % 256])
    case DeregTold(id) => Frame(e, MSG_TYPE_DEREG_CON, id, [])
    case _ => []
  }

  /** The node id a client uses after its readMsg has seen these messages. */
  function IdInUse(e: Endian, heard: seq<Act>): nat
  {
    if heard == [] then TWO64 - 1
    else
      var before := IdInUse(e, heard[..|heard| - 1]);
      match ClientRead(e, before, MessageOf(e, heard[|heard| - 1]))
      case Heard(id, _, _) => id
      case Refused(_) => before
  }

  function Confirms(s: seq<Act>): nat
  {
    if s == [] then 0 else Confirms(s[..|s| - 1]) + if s[|s| - 1].CcaTold? then 1 else 0
  }

  function Dones(s: seq<Act>): nat
  {
    if s == [] then 0 else Dones(s[..|s| - 1]) + if s[|s| - 1].TxEnded? then 1 else 0
  }

  function Ccas(s: seq<Parcel>): nat
  {
    if s == [] then 0 else Ccas(s[..|s| - 1]) + if s[|s| - 1].CcaRequest? then 1 else 0
  }

  function Datas(s: seq<Parcel>): nat
  {
    if s == [] then 0 else Datas(s[..|s| - 1]) + if s[|s| - 1].Data? then 1 else 0
  }

  // A client

  /** The parcels sent, how many of them the simulator has read, and how many of its messages the client has received. */
  datatype Client = Client(sent: seq<Parcel>, read: nat, heard: nat)

  /** A client confirms its registration first and once, after the request. It asks for CCA any time after that, and sends
      a packet, of a length the simulator can read, when every earlier one has its Tx Done. It leaves, and then falls
      silent, when every request has its answer. */
  predicate MaySend(e: Endian, sent: seq<Parcel>, heard: seq<Act>, p: Parcel)
  {
    && (heard != [] || p.Close?)
    && (sent != [] ==> !sent[|sent| - 1].Leaving())
    && match p
       case RegConfirm(os, osVersion) => sent == [] && |os| == |osVersion| == 32
       case CcaRequest => sent != []
       case Data(source, psdu, _, _, _, _) =>
         sent != [] && Datas(sent) == Dones(heard) && source < TWO64 && N.LengthReadable(e, DATA_IND_SIZE + |psdu|)
       case _ => Ccas(sent) == Confirms(heard) && Datas(sent) == Dones(heard)
  }

  // Clients, channels and medium together

  datatype Action = Send(id: NodeId, p: Parcel) | Hear(id: NodeId) | Serve(e: Event)

  datatype World = World(m: Medium, clients: map<NodeId, Client>)

  function HeardBy(w: World, id: NodeId): seq<Act>
    requires id in w.clients
  {
    var inbox := Inbox(w.m.log, id);
    if w.clients[id].heard <= |inbox| then inbox[..w.clients[id].heard] else inbox
  }

  /** Clients send and receive as they may; the simulator reads what a client sent, in order; it sees a socket closed only
      if the client has closed it. */
  predicate InOrder(w: World, a: Action)
  {
    match a
    case Send(id, p) => id in w.clients && MaySend(w.m.host, w.clients[id].sent, HeardBy(w, id), p)
    case Hear(id) => id in w.clients && w.clients[id].heard < |Inbox(w.m.log, id)|
    case Serve(Accept(id)) => id < TWO64
    case Serve(Recv(id, bytes)) =>
      Connected(Observe(w.m.log), id) ==>
        id in w.clients &&
        var c := w.clients[id];
        && c.read < |c.sent| && !c.sent[c.read].Close?
        && Encode(w.m.host, IdInUse(w.m.host, HeardBy(w, id)), c.sent[c.read]) <= bytes
    case Serve(Hangup(id)) =>
      Connected(Observe(w.m.log), id) ==>
        id in w.clients &&
        var sent := w.clients[id].sent;
        sent != [] && sent[|sent| - 1].Close?
    case Serve(_) => true
  }

  function Step(w: World, a: Action): World
  {
    match a
    case Send(id, p) =>
      if id in w.clients then w.(clients := w.clients[id := w.clients[id].(sent := w.clients[id].sent + [p])]) else w
    case Hear(id) =>
      if id in w.clients then w.(clients := w.clients[id := w.clients[id].(heard := w.clients[id].heard + 1)]) else w
    case Serve(e) =>
      var live := (e.Accept? || e.Recv?) && Connected(Observe(w.m.log), e.id);
      var clients :=
        if e.Accept? && !live then w.clients[e.id := Client([], 0, 0)]
        else if e.Recv? && live && e.id in w.clients then
          w.clients[e.id := w.clients[e.id].(read := w.clients[e.id].read + 1)]
        else w.clients;
      World(HandleEvent(w.m, e), clients)
  }

  function Play(w: World, actions: seq<Action>): World
    decreases |actions|
  {
    if actions == [] || !Running(w.m) then w else Play(Step(w, actions[0]), actions[1..])
  }

  predicate AllInOrder(w: World, actions: seq<Action>)
    decreases |actions|
  {
    actions == [] || !Running(w.m) || (InOrder(w, actions[0]) && AllInOrder(Step(w, actions[0]), actions[1..]))
  }

  /** What the simulator gets to see of it. */
  function Events(actions: seq<Action>): seq<Event>
    decreases |actions|
  {
    if actions == [] then []
    else (if actions[0].Serve? then [actions[0].e] else []) + Events(actions[1..])
  }

  /** A round in which clients act between the events of the poll. What they do during the rest of a round is seen by the
      next poll at the earliest, and counts as done then. */
  datatype Scene = Scene(actions: seq<Action>, txWindow: Window, regWindow: Window)
  {
    function Script(): RoundInput { RoundInput(Events(actions), txWindow, regWindow) }
  }

  function Scripts(scenes: seq<Scene>): (rounds: seq<RoundInput>)
    ensures |rounds| == |scenes|
  {
    if scenes == [] then [] else Scripts(scenes[..|scenes| - 1]) + [scenes[|scenes| - 1].Script()]
  }

  function PolledWorld(w: World): World
  {
    var ms := if w.m.state.IDLE? then IDLE_POLL_MS else BUSY_POLL_MS;
    w.(m := Emit(w.m.(curTime := Timespec.AddMs(w.m.curTime, ms)), Polled(ms)))
  }

  function Perform(w: World, scenes: seq<Scene>): World
  {
    if scenes == [] then w
    else
      var w1 := Perform(w, scenes[..|scenes| - 1]);
      var s := scenes[|scenes| - 1];
      if Running(w1.m) then World(Round(w1.m, s.Script()), Play(PolledWorld(w1), s.actions).clients) else w1
  }

  /** Every client behaves, and every channel keeps order, throughout. */
  predicate WellPlayed(w: World, scenes: seq<Scene>)
  {
    scenes == [] ||
    var n := |scenes| - 1;
    && WellPlayed(w, scenes[..n])
    && var w1 := Perform(w, scenes[..n]);
       Running(w1.m) ==> AllInOrder(PolledWorld(w1), scenes[n].actions)
  }
}
