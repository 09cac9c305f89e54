/** The medium and its nodes as objects. Each method's effect on the objects is the corresponding step of Protocol on the
    value they stand for. */
module PhysicalMedia {
  import opened Bytes
  import opened Wire
  import opened Messages
  import opened Protocol
  import opened DeviceNodes
  import opened Invariant
  import opened Runs
  import opened Steps
  import T = Timespec

  class PhysicalMedium {
    const kind: Kind
    const host: Endian
    const curTime: T.Timespec
    var state: Control
    /** What the clock shows. */
    var now: nat
    var regListMap: map<NodeId, DeviceNode>
    var nodeHashMap: map<NodeId, DeviceNode>
    var ccaList: seq<DeviceNode>
    var txList: seq<DeviceNode>
    var txPktsOk: nat
    var txPktsCollided: nat
    var txPktsFailed: nat
    var fault: Fault

    /** The live nodes, a set that covers their packets, and the nodes' values. */
    ghost var nodes: map<NodeId, DeviceNode>
    ghost var packets: set<NetSimPacket>
    ghost var heap: map<NodeId, Node>
    /** The keys of the two maps and the ids of the nodes on the two lists. */
    ghost var regIds: set<NodeId>
    ghost var hashIds: set<NodeId>
    ghost var ccaIds: seq<NodeId>
    ghost var txIds: seq<NodeId>
    ghost var log: seq<Act>

    constructor (kind: Kind, host: Endian, now: nat)
      ensures Valid() && fresh(curTime)
      ensures nodes == map[] && packets == {}
      ensures Model() == Initial(kind, host, now, T.TimeVal(0, 0)).(state := STOPPED)
    {
      this.kind, this.host, this.now := kind, host, now;
      var t := new T.Timespec(0, 0);
      curTime := t;
      state, fault := STOPPED, Sound;
      regListMap, nodeHashMap, ccaList, txList := map[], map[], [], [];
      txPktsOk, txPktsCollided, txPktsFailed := 0, 0, 0;
      nodes, packets, heap := map[], {}, map[];
      regIds, hashIds, ccaIds, txIds, log := {}, {}, [], [], [];
    }

    /** The value the objects stand for. */
    ghost function Model(): Medium
      reads this, curTime
    {
      Medium(kind, host, state, now, curTime.Value(), heap, regIds, hashIds, ccaIds, txIds,
             Stats(txPktsOk, txPktsCollided, txPktsFailed), fault, log)
    }

    /** The live nodes are keyed by their own ids, and heap holds their values. */
    ghost predicate Keyed()
      reads `nodes, `packets, `heap, nodes.Values, packets
    {
      && nodes.Keys == heap.Keys
      && (forall id :: id in nodes ==> nodes[id].id == id)
      && (forall id :: id in nodes && nodes[id].txPkt != null ==> nodes[id].txPkt in packets)
      && (forall id :: id in nodes ==> nodes[id].Shows(heap[id]))
    }

    /** Each live node is in exactly one of the two maps, under its own id. */
    ghost predicate Mapped()
      reads `nodes, `regListMap, `nodeHashMap, `regIds, `hashIds
    {
      && regListMap.Keys == regIds && nodeHashMap.Keys == hashIds
      && (forall id :: id in nodes <==> id in regIds || id in hashIds)
      && (forall id :: id in regListMap ==> id !in hashIds && regListMap[id] == nodes[id])
      && (forall id :: id in nodeHashMap ==> nodeHashMap[id] == nodes[id])
    }

    predicate Names(list: seq<DeviceNode>, ids: seq<NodeId>)
    {
      |list| == |ids| && forall i :: 0 <= i < |list| ==> list[i].id == ids[i]
    }

    ghost predicate Live(list: seq<DeviceNode>)
      reads `nodes
    {
      forall i :: 0 <= i < |list| ==> list[i].id in nodes && nodes[list[i].id] == list[i]
    }

    /** The pointers on the lists are to live nodes. */
    ghost predicate Listed()
      reads `nodes, `ccaList, `txList, `ccaIds, `txIds
    {
      Names(ccaList, ccaIds) && Names(txList, txIds) && Live(ccaList) && Live(txList)
    }

    /** Structure only: what the states of the nodes have to do with the maps and lists is not assumed here. */
    ghost predicate Valid()
      reads this, nodes.Values, packets
    {
      Keyed() && Mapped() && Listed()
    }

    /** What the handlers use of the structure. */
    lemma MapFacts(id: NodeId)
      requires Valid()
      ensures id in regListMap <==> id in regIds
      ensures id in nodeHashMap <==> id in hashIds
      ensures id in heap <==> id in nodes
      ensures id in heap <==> id in regIds || id in hashIds
    {}

    lemma NodeFacts(node: DeviceNode)
      requires Keyed() && IsLive(node)
      ensures node.id in heap && node.Shows(heap[node.id]) && (node.txPkt != null ==> node.txPkt in packets)
    {}

    /** Keyed, but for one node and its packet. */
    ghost predicate OthersKeyed(node: DeviceNode, pkt: NetSimPacket?)
      reads `nodes, `packets, `heap, nodes.Values - {node}, packets - {pkt}
    {
      && nodes.Keys == heap.Keys && IsLive(node)
      && (forall id :: id in nodes ==> nodes[id].id == id)
      && (forall id :: id in nodes && id != node.id && nodes[id].txPkt != null ==> nodes[id].txPkt in packets - {pkt})
      && (forall id :: id in nodes && id != node.id ==> nodes[id].Shows(heap[id]))
    }

    lemma OthersApart(node: DeviceNode)
      requires Keyed() && IsLive(node)
      ensures OthersKeyed(node, node.txPkt)
    {}

    method NewPacket(node: DeviceNode, ghost before: NetSimPacket?, msg: seq<Byte>) returns (dataPkt: NetSimPacket)
      requires OthersKeyed(node, before)
      modifies `packets
      ensures OthersKeyed(node, before) && dataPkt in packets && fresh(packets - old(packets)) && fresh(dataPkt)
      ensures dataPkt.fromNode == node && dataPkt.View() == Packet(msg, false, 0)
    {
      dataPkt := new NetSimPacket(msg, node);
      packets := packets + {dataPkt};
    }

    ghost method Rekey(node: DeviceNode, pkt: NetSimPacket?, n: Node)
      requires OthersKeyed(node, pkt) && node.Shows(n) && (node.txPkt != null ==> node.txPkt in packets)
      modifies `heap
      ensures Keyed() && node.id in old(heap) && heap == old(heap)[node.id := n]
    {
      heap := heap[node.id := n];
      KeysAfterUpdate(old(heap), node.id, n);
    }

    /** A connection. */
    method AddNode(id: NodeId)
      requires Valid()
      modifies `regListMap, `regIds, `nodes, `heap, `log
      ensures Valid() && Model() == AcceptNode(old(Model()), id)
      ensures fresh(nodes.Values - old(nodes.Values))
    {
      hide Keyed, Mapped, Listed;
      MapFacts(id);
      if id !in regListMap && id !in nodeHashMap {
        CreateNode(id);
        log := log + [Joined(id, now)];
      }
    }

    method CreateNode(id: NodeId)
      requires Valid() && id !in nodes
      modifies `regListMap, `regIds, `nodes, `heap
      ensures Valid() && fresh(nodes.Values - old(nodes.Values))
      ensures heap == old(heap)[id := NewNode(now)] && regIds == old(regIds) + {id}
    {
      hide Keyed, Mapped, Listed;
      var node := new DeviceNode(id, now);
      InsertNode(node);
      AddToRegList(node);
    }

    method AddToRegList(node: DeviceNode)
      requires InsertedButUnmapped(node)
      modifies `regListMap, `regIds
      ensures Mapped() && regIds == old(regIds) + {node.id}
    {
      regListMap := regListMap[node.id := node];
      regIds := regIds + {node.id};
    }

    ghost predicate InsertedButUnmapped(node: DeviceNode)
      reads `nodes, `regListMap, `nodeHashMap, `regIds, `hashIds
    {
      && IsLive(node) && node.id !in regIds && node.id !in hashIds
      && regListMap.Keys == regIds && nodeHashMap.Keys == hashIds
      && (forall id :: id in nodes <==> id in regIds || id in hashIds || id == node.id)
      && (forall id :: id in regListMap ==> id !in hashIds && regListMap[id] == nodes[id])
      && (forall id :: id in nodeHashMap ==> nodeHashMap[id] == nodes[id])
    }

    ghost method InsertNode(node: DeviceNode)
      requires Valid() && node.txPkt == null && node.Shows(NewNode(now)) && node.id !in nodes
      modifies `nodes, `heap
      ensures Keyed() && Listed() && InsertedButUnmapped(node) && nodes == old(nodes)[node.id := node]
      ensures heap == old(heap)[node.id := NewNode(now)]
    {
      nodes, heap := nodes[node.id := node], heap[node.id := NewNode(now)];
    }

    /** registerNode: from the registration list to the node hash map. */
    method RegisterNode(node: DeviceNode)
      requires Mapped() && node.id in regIds && nodes[node.id] == node
      modifies `regListMap, `nodeHashMap, `regIds, `hashIds
      ensures Mapped() && regIds == old(regIds) - {node.id} && hashIds == old(hashIds) + {node.id}
    {
      regListMap := regListMap - {node.id};
      nodeHashMap := nodeHashMap[node.id := node];
      regIds, hashIds := regIds - {node.id}, hashIds + {node.id};
    }

    ghost predicate IsLive(node: DeviceNode)
      reads `nodes
    {
      node.id in nodes && nodes[node.id] == node
    }

    method HandleRegistrationConfirm(node: DeviceNode)
      requires Valid() && IsLive(node)
      modifies `regListMap, `nodeHashMap, `regIds, `hashIds, `heap, `fault, `log, node
      ensures Valid() && node.id in old(heap) && Model() == Confirm(old(Model()), node.id)
    {
      hide Keyed, Mapped, Listed, Confirm;
      MapFacts(node.id);
      NodeFacts(node);
      ConfirmCases(Model(), node.id);
      if !node.curState.Registering? {
        fault := Thrown;
      } else if node.id !in regListMap {
        fault := AssertFailed;
      } else {
        MoveToHashMap(node);
        log := log + [Confirmed(node.id)];
      }
    }

    method MoveToHashMap(node: DeviceNode)
      requires Valid() && IsLive(node) && node.curState.Registering? && node.id in regIds
      modifies `regListMap, `nodeHashMap, `regIds, `hashIds, `heap, node
      ensures Valid() && regIds == old(regIds) - {node.id} && hashIds == old(hashIds) + {node.id}
      ensures heap == old(heap)[node.id := old(heap)[node.id].(regTimer := Off, phase := Active)]
    {
      hide Keyed, Mapped, Listed;
      Activate(node);
      RegisterNode(node);
    }

    method Activate(node: DeviceNode)
      requires Keyed() && IsLive(node) && node.curState.Registering?
      modifies `heap, node`regTimer, node`curState
      ensures Keyed() && heap == old(heap)[node.id := old(heap)[node.id].(regTimer := Off, phase := Active)]
    {
      hide Keyed, OthersKeyed;
      NodeFacts(node);
      OthersApart(node);
      node.LeaveRegistering();
      Rekey(node, node.txPkt, heap[node.id].(regTimer := Off, phase := Active));
    }

    /** addNodeToCcaList, then the state, of which only the Registering one refuses. */
    method HandleCcaRequest(node: DeviceNode)
      requires Valid() && IsLive(node)
      modifies `ccaList, `ccaIds, `fault, `log
      ensures Valid() && node.id in heap && Model() == AskCca(old(Model()), node.id)
    {
      hide Keyed, Mapped, Listed;
      NodeFacts(node);
      AddNodeToCcaList(node);
      if node.curState.Registering? {
        fault := Thrown;
      } else {
        log := log + [CcaAsked(node.id)];
      }
    }

    method AddNodeToCcaList(node: DeviceNode)
      requires Listed() && IsLive(node)
      modifies `ccaList, `ccaIds
      ensures Listed() && ccaIds == old(ccaIds) + [node.id]
    {
      ccaList, ccaIds := ccaList + [node], ccaIds + [node.id];
    }

    method AddNodeToTxList(node: DeviceNode)
      requires Listed() && IsLive(node)
      modifies `txList, `txIds
      ensures Listed() && txIds == old(txIds) + [node.id]
    {
      txList, txIds := txList + [node], txIds + [node.id];
    }

    method HandleDataIndication(node: DeviceNode, msg: seq<Byte>)
      requires Valid() && IsLive(node) && |msg| < 0x1_0000
      modifies `txList, `txIds, `packets, `heap, `fault, `log, node
      ensures Valid() && node.id in old(heap) && Model() == Transmit(old(Model()), node.id, msg)
      ensures fresh(packets - old(packets))
    {
      hide Keyed, Mapped, Listed, Transmit;
      NodeFacts(node);
      TransmitCases(Model(), node.id, msg);
      if !node.curState.Active? {
        fault := Thrown;
      } else if node.txTimer.On? {
        fault := AssertFailed;
      } else {
        EnterTx(node, msg);
        log := log + [TxBegan(node.id, msg, now)];
      }
    }

    /** ActiveState::handleTxRequest. */
    method EnterTx(node: DeviceNode, msg: seq<Byte>)
      requires Valid() && IsLive(node) && |msg| < 0x1_0000 && node.curState.Active? && node.txTimer.Off?
      modifies `txList, `txIds, `packets, `heap, node
      ensures Valid() && fresh(packets - old(packets)) && txIds == old(txIds) + [node.id]
      ensures node.id in old(heap) && heap == old(heap)[node.id := Node(Tx, old(heap)[node.id].regTimer,
        Started(now, if IsAck(msg) then 0 else TIME_ON_WIRE_MS), InFlight(Packet(msg, false, 0)))]
    {
      hide Keyed, Mapped, Listed;
      NodeFacts(node);
      StartTx(node, msg);
      AddNodeToTxList(node);
    }

    method StartTx(node: DeviceNode, msg: seq<Byte>)
      requires Keyed() && IsLive(node) && |msg| < 0x1_0000 && node.curState.Active? && node.txTimer.Off?
      modifies `packets, `heap, node`txTimer, node`txPkt, node`curState
      ensures Keyed() && fresh(packets - old(packets))
      ensures heap == old(heap)[node.id := Node(Tx, old(heap)[node.id].regTimer,
        Started(now, if IsAck(msg) then 0 else TIME_ON_WIRE_MS), InFlight(Packet(msg, false, 0)))]
    {
      hide Keyed, OthersKeyed, IsAck, Started;
      StartedIs(now, msg);
      NodeFacts(node);
      OthersApart(node);
      ghost var before, regTimer := node.txPkt, heap[node.id].regTimer;
      assert node.regTimer == regTimer;
      var dataPkt := NewPacket(node, before, msg);
      node.BeginTx(dataPkt, now);
      ghost var n := Node(Tx, regTimer, node.txTimer, InFlight(Packet(msg, false, 0)));
      assert node.Shows(n);
      Rekey(node, before, n);
    }

    /** deregisterNode. Deleting a node that a list still points to ends the run here: the code goes on with a dangling
        pointer. */
    method DeregisterNode(node: DeviceNode)
      requires Valid() && IsLive(node)
      modifies `regListMap, `nodeHashMap, `regIds, `hashIds, `nodes, `heap, `fault, `log
      ensures Valid() && node.id in old(heap) && Model() == Release(old(Model()), node.id)
      ensures nodes.Values <= old(nodes.Values)
    {
      hide Keyed, Mapped, Listed, Release;
      MapFacts(node.id);
      ListFacts(node);
      ReleaseCases(Model(), node.id);
      if node in ccaList || node in txList {
        fault := Undefined;
      } else if node.id in regListMap {
        EraseFromRegList(node);
        log := log + [Departed(node.id)];
      } else {
        assert node.id in nodeHashMap;
        EraseFromHashMap(node);
        log := log + [Departed(node.id)];
      }
    }

    lemma ListFacts(node: DeviceNode)
      requires Valid() && IsLive(node)
      ensures node in ccaList <==> node.id in ccaIds
      ensures node in txList <==> node.id in txIds
    {}

    ghost method DeleteNode(node: DeviceNode)
      requires Keyed() && Listed() && IsLive(node) && node !in ccaList && node !in txList
      modifies `nodes, `heap
      ensures Keyed() && Listed() && nodes == old(nodes) - {node.id} && heap == old(heap) - {node.id}
      ensures nodes.Values <= old(nodes.Values)
    {
      hide Keyed;
      Forget(node);
    }

    ghost method Forget(node: DeviceNode)
      requires Keyed() && IsLive(node)
      modifies `nodes, `heap
      ensures Keyed() && nodes == old(nodes) - {node.id} && heap == old(heap) - {node.id}
      ensures nodes.Values <= old(nodes.Values)
    {
      nodes, heap := nodes - {node.id}, heap - {node.id};
    }

    method EraseFromRegList(node: DeviceNode)
      requires Valid() && IsLive(node) && node.id in regIds && node !in ccaList && node !in txList
      modifies `regListMap, `regIds, `nodes, `heap
      ensures Valid() && nodes.Values <= old(nodes.Values)
      ensures regIds == old(regIds) - {node.id} && heap == old(heap) - {node.id}
    {
      hide Keyed, Listed;
      regListMap, regIds := regListMap - {node.id}, regIds - {node.id};
      DeleteNode(node);
    }

    method EraseFromHashMap(node: DeviceNode)
      requires Valid() && IsLive(node) && node.id !in regIds && node !in ccaList && node !in txList
      modifies `nodeHashMap, `hashIds, `nodes, `heap
      ensures Valid() && nodes.Values <= old(nodes.Values)
      ensures hashIds == old(hashIds) - {node.id} && heap == old(heap) - {node.id}
    {
      hide Keyed, Listed;
      nodeHashMap, hashIds := nodeHashMap - {node.id}, hashIds - {node.id};
      DeleteNode(node);
    }

    /** The confirm is sent, then every state deregisters. */
    method HandleDeregistrationRequest(node: DeviceNode)
      requires Valid() && IsLive(node)
      modifies `regListMap, `nodeHashMap, `regIds, `hashIds, `nodes, `heap, `fault, `log
      ensures Valid() && node.id in old(heap)
      ensures Model() == Release(Emit(old(Model()), DeregTold(node.id)), node.id)
      ensures nodes.Values <= old(nodes.Values)
    {
      hide Keyed, Mapped, Listed, Release;
      log := log + [DeregTold(node.id)];
      DeregisterNode(node);
    }

    /** DeviceNode::readMsg and its switch. */
    method ReadMsg(node: DeviceNode, bytes: seq<Byte>)
      requires Valid() && IsLive(node)
      modifies this, node
      ensures Valid() && node.id in old(heap)
      ensures Model() == Handle(old(Model()), node.id, Messages.ReadMsg(host, node.id, bytes))
      ensures nodes.Values <= old(nodes.Values) && fresh(packets - old(packets))
    {
      hide Keyed, Mapped, Listed, Confirm, Release, AskCca, Transmit, Messages.ReadMsg;
      NodeFacts(node);
      DataIndSize(host, node.id, bytes);
      var input := ReceiveMsg(host, node.id, bytes);
      match input {
        case Dropped =>
        case Broken(f) => fault := f;
        case RegCon(_, _) => HandleRegistrationConfirm(node);
        case DeregReq => HandleDeregistrationRequest(node);
        case CcaReq => HandleCcaRequest(node);
        case DataInd(msg) => HandleDataIndication(node, msg);
      }
    }

    /** The node an epoll event is for. */
    method Find(id: NodeId) returns (node: DeviceNode?)
      requires Valid()
      ensures if id in heap then node != null && IsLive(node) && node.id == id else node == null
    {
      node := if id in regListMap then regListMap[id] else if id in nodeHashMap then nodeHashMap[id] else null;
    }

    method ProcessRead(id: NodeId, bytes: seq<Byte>)
      requires Valid()
      modifies this, nodes.Values
      ensures Valid() && Model() == HandleEvent(old(Model()), Recv(id, bytes))
      ensures nodes.Values <= old(nodes.Values) && fresh(packets - old(packets))
    {
      hide Keyed, Mapped, Listed, Handle, Messages.ReadMsg;
      var node := Find(id);
      if node != null {
        ReadMsg(node, bytes);
      }
    }

    method ProcessHangup(id: NodeId)
      requires Valid()
      modifies `regListMap, `nodeHashMap, `regIds, `hashIds, `nodes, `heap, `fault, `log
      ensures Valid() && Model() == HandleEvent(old(Model()), Hangup(id)) && nodes.Values <= old(nodes.Values)
    {
      hide Keyed, Mapped, Listed, Release;
      var node := Find(id);
      if node != null {
        DeregisterNode(node);
      }
    }

    method ProcessEvent(e: Event)
      requires Valid()
      modifies this, nodes.Values
      ensures Valid() && Model() == HandleEvent(old(Model()), e)
      ensures fresh(nodes.Values - old(nodes.Values)) && fresh(packets - old(packets))
    {
      hide Keyed, Mapped, Listed, Release, AcceptNode, Handle, Messages.ReadMsg;
      match e {
        case Accept(id) => AddNode(id);
        case Recv(id, bytes) => ProcessRead(id, bytes);
        case Hangup(id) => ProcessHangup(id);
        case Unblock => state := STOPPING;
        case Elapse(ns) => now := now + ns;
      }
    }

    method ProcessPollerEvents(batch: seq<Event>)
      requires Valid() && Running(Model())
      modifies this, nodes.Values
      ensures Valid() && Model() == HandleEvents(old(Model()), batch)
      ensures fresh(nodes.Values - old(nodes.Values)) && fresh(packets - old(packets))
    {
      hide Keyed, Mapped, Listed, HandleEvent;
      var i := 0;
      while i < |batch| && fault.Sound? && !state.STOPPING?
        invariant i <= |batch| && Valid()
        invariant state.IDLE? || state.TX_802514_FRAME? || state.STOPPING?
        invariant HandleEvents(Model(), batch[i..]) == HandleEvents(old(Model()), batch)
        invariant fresh(nodes.Values - old(nodes.Values)) && fresh(packets - old(packets))
      {
        EventState(Model(), batch[i]);
        ProcessEvent(batch[i]);
        i := i + 1;
      }
    }

    method Interval(ms: nat, batch: seq<Event>)
      requires Valid() && Running(Model()) && ms < TWO64
      modifies this, curTime, nodes.Values
      ensures Valid() && Model() == Protocol.Interval(old(Model()), ms, batch)
      ensures fresh(nodes.Values - old(nodes.Values)) && fresh(packets - old(packets))
    {
      hide Keyed, Mapped, Listed, HandleEvents, T.AddMs;
      curTime.AddMilliseconds(ms);
      log := log + [Polled(ms)];
      ProcessPollerEvents(batch);
    }

    /** The front of the list is erased before it is answered. */
    method ProcessCcaList()
      requires Valid()
      modifies `ccaList, `ccaIds, `log
      ensures Valid() && Model() == ProcessCca(old(Model())) && ccaList == []
    {
      hide Keyed, Mapped, Listed;
      while ccaList != []
        invariant Valid() && ProcessCca(Model()) == ProcessCca(old(Model()))
        decreases |ccaList|
      {
        var node := TakeCca();
        log := log + [CcaTold(node.id, state.IDLE?)];
      }
      NobodyWaits();
    }

    lemma NobodyWaits()
      requires Valid() && ccaList == []
      ensures ccaIds == []
    {}

    method TakeCca() returns (node: DeviceNode)
      requires Valid() && ccaList != []
      modifies `ccaList, `ccaIds
      ensures Valid() && |old(ccaIds)| == |ccaIds| + 1 && ccaIds == old(ccaIds)[1..]
      ensures node.id == old(ccaIds)[0] && node.id in heap && ccaList == old(ccaList)[1..]
    {
      hide Keyed, Mapped;
      node := ccaList[0];
      NodeFacts(node);
      ccaList, ccaIds := ccaList[1..], ccaIds[1..];
    }

    // Collision check

    ghost predicate InTheAir(ids: seq<NodeId>)
      reads `heap
    {
      forall id :: id in ids ==> id in heap && heap[id].txPkt.InFlight?
    }

    /** WirelessMedium does nothing; PowerlineMedium marks every packet when more than one node is on the list. */
    method TxCollisionCheck()
      requires Valid() && Agreement(Model())
      modifies `heap, `log, packets
      ensures Valid() && Model() == CollisionCheck(old(Model()))
    {
      hide Keyed, Mapped, Listed;
      CheckEffect(Model());
      TxIdsLength();
      AirFacts();
      hide Agreement, CollisionCheck;
      if kind.Powerline? && |txList| > 1 {
        SetAllCollided();
      }
      log := log + [Checked];
      assert heap == CollisionCheck(old(Model())).heap;
    }

    lemma TxIdsLength()
      requires Valid()
      ensures |txIds| == |txList|
    {}

    lemma AirFacts()
      requires Agreement(Model())
      ensures InTheAir(txIds)
    {}

    method SetAllCollided()
      requires Valid() && InTheAir(txIds)
      modifies `heap, packets
      ensures Valid() && heap.Keys == old(heap).Keys
      ensures forall id :: id in heap ==> heap[id] == if id in txIds then Marked(old(heap)[id]) else old(heap)[id]
    {
      hide Keyed, Mapped, Listed;
      TxIdsLength();
      var i := 0;
      while i < |txList|
        invariant i <= |txList| && Valid() && heap.Keys == old(heap).Keys
        invariant forall id :: id in heap ==> heap[id] == if id in txIds[..i] then Marked(old(heap)[id]) else old(heap)[id]
      {
        SetCollidedAt(i);
        assert txIds[..i + 1] == txIds[..i] + [txIds[i]];
        i := i + 1;
      }
      assert txIds[..i] == txIds;
    }

    lemma TxPointer(i: nat)
      requires Valid() && i < |txList|
      ensures |txIds| == |txList| && txList[i].id == txIds[i] && IsLive(txList[i]) && txIds[i] in heap
      ensures txList[i].Shows(heap[txIds[i]])
      ensures txList[i].txPkt != null ==> txList[i].txPkt in packets
    {}

    method SetCollidedAt(i: nat)
      requires Valid() && i < |txList| == |txIds| && txIds[i] in heap && heap[txIds[i]].txPkt.InFlight?
      modifies `heap, packets
      ensures Valid() && heap == old(heap)[txIds[i] := Marked(old(heap)[txIds[i]])]
    {
      hide Keyed, Mapped, Listed;
      TxPointer(i);
      SetNodeCollided(txList[i]);
    }

    method SetNodeCollided(node: DeviceNode)
      requires Keyed() && IsLive(node) && node.txPkt != null
      modifies `heap, node.txPkt
      ensures Keyed() && node.id in old(heap) && heap == old(heap)[node.id := Marked(old(heap)[node.id])]
    {
      hide Keyed, OthersKeyed;
      NodeFacts(node);
      OthersApart(node);
      node.txPkt.SetCollided(true);
      Rekey(node, node.txPkt, Marked(heap[node.id]));
    }

    // Completion

    /** Each timer is read at its own instant of the sweep. The source's asserts on the timer and the packet, and the
        throws of the states that expect no such timer, are the asserts here. */
    method ProcessTxList(w: Window)
      requires Valid() && Inv(Model()) && Settled(Model())
      modifies this, nodes.Values, packets
      ensures Valid() && Model() == ProcessTx(old(Model()), w) && nodes == old(nodes) && packets == old(packets)
    {
      hide Keyed, Mapped, Listed, Inv, Settled, TxVisit;
      var i := 0;
      TxIdsLength();
      while i < |txList| && fault.Sound?
        invariant i <= |txList| == |txIds| && Valid() && (fault.Sound? ==> Inv(Model()) && Settled(Model()))
        invariant nodes == old(nodes) && packets == old(packets)
        invariant TxSweep(Model(), txIds[i..], w) == TxSweep(old(Model()), old(txIds), w)
        decreases |txList| - i
      {
        TxPointer(i);
        VisitOutcome(Model(), txIds[i], w);
        var erased := VisitTx(i, w);
        if !erased {
          i := i + 1;
        }
      }
      now := now + w.total;
    }

    method VisitTx(i: nat, w: Window) returns (erased: bool)
      requires Valid() && Inv(Model()) && Settled(Model()) && i < |txList| == |txIds|
      modifies this, nodes.Values, packets
      ensures Valid() && Model() == TxVisit(old(Model()), old(txIds)[i], w)
      ensures nodes == old(nodes) && packets == old(packets) && |txList| == |txIds|
      ensures if erased then |txList| == |old(txList)| - 1 && txIds[i..] == old(txIds)[i + 1..] else txIds == old(txIds)
    {
      hide Keyed, Mapped, Listed, Inv, Settled;
      TxPointer(i);
      var node := txList[i];
      InvTx(Model(), i);
      assert node.txTimer.On?;
      erased := node.HasTxTimerExpired(now + w.Offset(node.id));
      if erased {
        CompleteTx(node, i, now + w.Offset(node.id));
      }
    }

    method CompleteTx(node: DeviceNode, i: nat, at: nat)
      requires Valid() && i < |txList| == |txIds| && IsLive(node) && node.id == txIds[i]
      requires node.curState.Tx? && node.txPkt != null && |node.txPkt.pktBuffer| >= DATA_IND_SIZE
      requires node.id in heap && heap[node.id].txPkt == InFlight(node.txPkt.View()) && node.txPkt in packets
      requires Without(txIds, txIds[i]) == txIds[..i] + txIds[i + 1..]
      modifies `heap, `txList, `txIds, `txPktsOk, `txPktsCollided, `log, `fault, node, node.txPkt
      ensures Valid() && node.id in old(heap)
      ensures Model() == Complete(old(Model()), node.id, old(node.txPkt.View()), at)
      ensures |txList| == |txIds| == |old(txList)| - 1 && txIds[i..] == old(txIds)[i + 1..]
    {
      hide Keyed, Mapped, Listed, Outgoing, Without, Complete, Finished, Overstates;
      CompletionOf(Model(), node.id, node.txPkt.View(), at);
      var overread := CompletePacket(node, at);
      EraseTx(i);
      fault := if overread then Undefined else fault;
    }

    method CompletePacket(node: DeviceNode, at: nat) returns (overread: bool)
      requires Keyed() && IsLive(node) && node.curState.Tx? && node.txPkt != null && |node.txPkt.pktBuffer| >= DATA_IND_SIZE
      modifies `heap, `txPktsOk, `txPktsCollided, `log, node, node.txPkt
      ensures Keyed() && node.id in old(heap)
      ensures Model() == Finished(old(Model()), node.id, old(node.txPkt.View()), at)
      ensures overread <==> !old(node.txPkt.collision) && Overstates(old(node.txPkt.pktBuffer))
    {
      hide Keyed, Outgoing, Overstates;
      var result, frame;
      result, frame, overread := EndTx(node);
      RecordTx(node.id, result, frame, at);
    }

    method RecordTx(id: NodeId, result: int, frame: seq<Byte>, at: nat)
      requires result == TX_DONE_OK || result == TX_DONE_COLLIDED
      modifies `log, `txPktsOk, `txPktsCollided
      ensures result == TX_DONE_OK ==>
                && log == old(log) + [TxEnded(id, TX_DONE_OK, at)] + [Multicast(id, frame)]
                && txPktsOk == old(txPktsOk) + 1 && txPktsCollided == old(txPktsCollided)
      ensures result == TX_DONE_COLLIDED ==>
                && log == old(log) + [TxEnded(id, TX_DONE_COLLIDED, at)]
                && txPktsOk == old(txPktsOk) && txPktsCollided == old(txPktsCollided) + 1
    {
      log := log + [TxEnded(id, result, at)];
      if result == TX_DONE_OK {
        log := log + [Multicast(id, frame)];
        txPktsOk := txPktsOk + 1;
      } else {
        txPktsCollided := txPktsCollided + 1;
      }
    }

    /** The node and its packet in processTxList: the Tx Done result, the frame if it is multicast, and
        setTxPacket(NULL). */
    method EndTx(node: DeviceNode) returns (result: int, frame: seq<Byte>, overread: bool)
      requires Keyed() && IsLive(node)
      requires node.curState.Tx? && node.txPkt != null && |node.txPkt.pktBuffer| >= DATA_IND_SIZE
      modifies `heap, node, node.txPkt
      ensures Keyed() && node.id in old(heap)
      ensures heap == old(heap)[node.id := Node(Active, old(heap)[node.id].regTimer, Off, NoPacket)]
      ensures result == if old(node.txPkt.collision) then TX_DONE_COLLIDED else TX_DONE_OK
      ensures result == TX_DONE_OK ==> frame == Outgoing(host, old(node.txPkt.pktBuffer))
      ensures overread <==> result == TX_DONE_OK && Overstates(old(node.txPkt.pktBuffer))
    {
      hide Keyed, OthersKeyed, Outgoing, Overstates;
      ghost var pkt := node.txPkt;
      NodeFacts(node);
      OthersApart(node);
      result, frame, overread := EndOfPacket(node);
      Rekey(node, pkt, Node(Active, node.regTimer, Off, NoPacket));
    }

    method EndOfPacket(node: DeviceNode) returns (result: int, frame: seq<Byte>, overread: bool)
      requires node.curState.Tx? && node.txPkt != null && DATA_IND_SIZE <= |node.txPkt.pktBuffer| < 0x1_0000
      modifies node`txTimer, node`curState, node`txPkt, node.txPkt
      ensures node.curState == Active && node.txTimer == Off && node.txPkt == null
      ensures result == if old(node.txPkt.collision) then TX_DONE_COLLIDED else TX_DONE_OK
      ensures result == TX_DONE_OK ==> frame == Outgoing(host, old(node.txPkt.pktBuffer))
      ensures overread <==> result == TX_DONE_OK && Overstates(old(node.txPkt.pktBuffer))
    {
      var pkt := node.txPkt;
      frame, overread := [], false;
      node.HandleTxTimerExpired();
      result := pkt.txDoneResult;
      if result == TX_DONE_OK {
        frame, overread := TxPacket(pkt);
      }
      node.txPkt := null;
    }

    /** After the multicast the packet is dumped, pktbufSize() bytes from the end of its fixed fields on. */
    method TxPacket(pkt: NetSimPacket) returns (frame: seq<Byte>, overread: bool)
      requires DATA_IND_SIZE <= |pkt.pktBuffer| < 0x1_0000
      modifies pkt
      ensures frame == Outgoing(host, old(pkt.pktBuffer))
      ensures overread <==> Overstates(old(pkt.pktBuffer))
    {
      SealedShape(host, pkt.pktBuffer[RSSI_OFFSET := 127]);
      hide Sealed, FromBE;
      pkt.SetRSSI(127);
      pkt.GenerateChecksum(host);
      frame := pkt.pktBuffer;
      assert frame[PSDU_LEN_OFFSET..PSDU_LEN_OFFSET + 2] == old(pkt.pktBuffer)[PSDU_LEN_OFFSET..PSDU_LEN_OFFSET + 2];
      var size := pkt.PktbufSize(host);
      overread := size > |frame| - DATA_IND_SIZE;
    }

    method EraseTx(i: nat)
      requires Listed() && i < |txList|
      modifies `txList, `txIds
      ensures Listed() && |txList| == |txIds| == |old(txList)| - 1
      ensures txIds == old(txIds)[..i] + old(txIds)[i + 1..] && txIds[i..] == old(txIds)[i + 1..]
    {
      txList, txIds := txList[..i] + txList[i + 1..], txIds[..i] + txIds[i + 1..];
    }

    // Registration timeouts

    /** The sweep of the registration list, in any order of its keys. */
    method CheckNodeRegistrationTimeout(w: Window)
      requires Valid() && Agreement(Model())
      modifies `regListMap, `regIds, `nodes, `heap, `log, `now
      ensures Valid() && Model() == SweepRegs(old(Model()), w) && nodes.Values <= old(nodes.Values)
    {
      hide Keyed, Mapped, Listed, SweepRegs, Readings;
      SweepRegsEffect(Model(), w);
      hide Agreement;
      ghost var readings := Readings(regIds, now, w);
      var dead := EraseExpired(w);
      now, log := now + w.total, log + [TimedOut(dead, readings)];
    }

    method EraseExpired(w: Window) returns (dead: set<NodeId>)
      requires Valid() && Agreement(Model())
      modifies `regListMap, `regIds, `nodes, `heap
      ensures Valid() && nodes.Values <= old(nodes.Values)
      ensures dead == set id | id in old(regIds) && Expired(old(heap)[id].regTimer, now + w.Offset(id))
      ensures heap == old(heap) - dead && regIds == old(regIds) - dead
    {
      hide Keyed, Mapped, Listed;
      Registrants();
      hide Agreement;
      var todo := regListMap.Keys;
      dead := {};
      while todo != {}
        invariant Valid() && nodes.Values <= old(nodes.Values)
        invariant todo <= old(regIds) && dead <= old(regIds) - todo
        invariant heap == old(heap) - dead && regIds == old(regIds) - dead
        invariant forall id :: id in old(regIds) - todo ==>
                    (id in dead <==> Expired(old(heap)[id].regTimer, now + w.Offset(id)))
        decreases todo
      {
        var id :| id in todo;
        var gone := CheckNode(id, w);
        if gone {
          dead := dead + {id};
        }
        todo := todo - {id};
      }
    }

    lemma Registrants()
      requires Valid() && Agreement(Model())
      ensures regListMap.Keys == regIds
      ensures forall id :: id in regIds ==> id in heap && IsRegistering(heap[id]) && id !in ccaIds && id !in txIds
    {}

    /** The source's two asserts, and the throws of the states that expect no registration timer, are the asserts here. */
    method CheckNode(id: NodeId, w: Window) returns (gone: bool)
      requires Valid() && id in regIds && id in heap && IsRegistering(heap[id]) && id !in ccaIds && id !in txIds
      modifies `regListMap, `regIds, `nodes, `heap
      ensures Valid() && nodes.Values <= old(nodes.Values)
      ensures gone <==> Expired(old(heap)[id].regTimer, now + w.Offset(id))
      ensures heap == (if gone then old(heap) - {id} else old(heap))
      ensures regIds == (if gone then old(regIds) - {id} else old(regIds))
    {
      hide Keyed, Mapped, Listed;
      RegPointer(id);
      var node := regListMap[id];
      NodeFacts(node);
      ListFacts(node);
      assert node.id == id;
      assert node.regTimer.On?;
      gone := node.HasRegTimerExpired(now + w.Offset(id));
      if gone {
        assert node.curState.Registering?;
        EraseFromRegList(node);
      }
    }

    lemma RegPointer(id: NodeId)
      requires Valid() && id in regIds
      ensures id in regListMap && IsLive(regListMap[id]) && regListMap[id].id == id
    {}

    // The medium thread

    /** The outer loop's body up to the inner loop. */
    method IdlePass(r: RoundInput)
      requires Valid() && Between(Model()) && Running(Model()) && state.IDLE?
      modifies this, curTime, nodes.Values
      ensures Valid() && Finish(Model(), r.regWindow) == Round(old(Model()), r) && InLoop(Model())
      ensures fresh(nodes.Values - old(nodes.Values)) && fresh(packets - old(packets))
    {
      hide Keyed, Mapped, Listed, Between, InLoop, Finish, Round, Protocol.Interval, ProcessCca;
      IdleStages(Model(), r);
      Interval(IDLE_POLL_MS, r.batch);
      if !fault.Sound? || state.STOPPING? {
        return;
      }
      TxIdsLength();
      if txList != [] {
        state := TX_802514_FRAME;
      }
      ProcessCcaList();
    }

    /** The inner loop's body. */
    method BusyPass(r: RoundInput)
      requires Valid() && Between(Model()) && Running(Model()) && state.TX_802514_FRAME?
      modifies this, curTime, nodes.Values, packets
      ensures Valid() && Finish(Model(), r.regWindow) == Round(old(Model()), r) && InLoop(Model())
      ensures fresh(nodes.Values - old(nodes.Values)) && fresh(packets - old(packets))
    {
      hide Keyed, Mapped, Listed, Between, InLoop, Finish, Round, Protocol.Interval, ProcessCca, CollisionCheck, ProcessTx,
           Inv, Settled, Agreement;
      BusyStages(Model(), r);
      Interval(BUSY_POLL_MS, r.batch);
      if !fault.Sound? || state.STOPPING? {
        return;
      }
      ProcessCcaList();
      TxCollisionCheck();
      ProcessTxList(r.txWindow);
    }

    /** The inner loop, to the end of the script, a failure, the unblocker or an empty txList. */
    method BusyLoop(ghost m0: Medium, rounds: seq<RoundInput>, start: nat) returns (k: nat)
      requires 0 < start <= |rounds| && Valid() && InLoop(Model())
      requires Finish(Model(), rounds[start - 1].regWindow) == Protocol.Run(m0, rounds[..start])
      modifies this, curTime, nodes.Values, packets
      ensures start <= k <= |rounds| && Valid() && InLoop(Model())
      ensures Finish(Model(), rounds[k - 1].regWindow) == Protocol.Run(m0, rounds[..k])
      ensures txIds != [] && !state.STOPPING? && fault.Sound? ==> k == |rounds|
      ensures |txIds| == |txList|
      ensures fresh(nodes.Values - old(nodes.Values)) && fresh(packets - old(packets))
    {
      hide Keyed, Mapped, Listed, Between, Protocol.Run, Round, Finish, InLoop;
      k := start;
      TxIdsLength();
      while fault.Sound? && txList != [] && !state.STOPPING? && k < |rounds|
        invariant start <= k <= |rounds| && Valid() && InLoop(Model()) && |txIds| == |txList|
        invariant Finish(Model(), rounds[k - 1].regWindow) == Protocol.Run(m0, rounds[..k])
        invariant fresh(nodes.Values - old(nodes.Values)) && fresh(packets - old(packets))
        decreases |rounds| - k
      {
        FinishFacts(Model(), rounds[k - 1].regWindow);
        RunNext(m0, rounds, k);
        BusyPass(rounds[k]);
        k := k + 1;
        TxIdsLength();
      }
    }

    /** After the inner loop: the state and the sweep, or the end of the thread. */
    method EndPass(w: Window)
      requires Valid() && InLoop(Model())
      modifies `state, `regListMap, `regIds, `nodes, `heap, `log, `now
      ensures Valid() && Model() == Finish(old(Model()), w) && nodes.Values <= old(nodes.Values)
    {
      hide Keyed, Mapped, Listed, Between, InLoop, SweepRegs;
      FinishFacts(Model(), w);
      TxIdsLength();
      if fault.Sound? && state.STOPPING? {
        state := STOPPED;
      } else if fault.Sound? && txList == [] {
        state := IDLE;
        CheckNodeRegistrationTimeout(w);
      }
    }

    /** The outer loop. */
    method OuterLoop(rounds: seq<RoundInput>)
      requires Valid() && Between(Model()) && Running(Model()) && state.IDLE?
      modifies this, curTime, nodes.Values, packets
      ensures Valid() && Model() == Protocol.Run(old(Model()), rounds)
    {
      hide Keyed, Mapped, Listed, Between, Protocol.Run, Round, Finish, InLoop, SweepRegs;
      ghost var m0 := Model();
      RunStart(m0, rounds);
      var k := 0;
      while k < |rounds|
        invariant k <= |rounds| && Valid() && Model() == Protocol.Run(m0, rounds[..k])
        invariant Between(Model()) && Running(Model()) && state.IDLE?
        invariant fresh(nodes.Values - old(nodes.Values)) && fresh(packets - old(packets))
        decreases |rounds| - k
      {
        RunNext(m0, rounds, k);
        IdlePass(rounds[k]);
        k := BusyLoop(m0, rounds, k + 1);
        FinishFacts(Model(), rounds[k - 1].regWindow);
        EndPass(rounds[k - 1].regWindow);
        if !fault.Sound? || !state.IDLE? {
          break;
        }
      }
      RunOver(m0, rounds, k);
    }

    /** The thread until the unblocker, a failure, or the end of the given polls: a poll is consumed by each call of
        interval. */
    method Run(start: T.TimeVal, rounds: seq<RoundInput>)
      requires Valid() && Model() == Initial(kind, host, now, curTime.Value()).(state := STOPPED)
      modifies this, curTime, nodes.Values, packets
      ensures Valid() && Model() == Protocol.Run(Initial(kind, host, old(now), start), rounds)
    {
      hide Keyed, Mapped, Listed, Between, Protocol.Run;
      state := IDLE;
      curTime.tv_sec, curTime.tv_nsec := start.sec, start.nsec;
      InitialIsSound(kind, host, now, start);
      OuterLoop(rounds);
    }

    // Destruction

    /** The destructor empties both maps. Every live node is deleted exactly once, also when a list still points to it. */
    method Destroy() returns (deleted: seq<NodeId>)
      requires Valid()
      modifies `regListMap, `nodeHashMap, `regIds, `hashIds, `nodes, `heap
      ensures regListMap == nodeHashMap == nodes == map[]
      ensures NoDup(deleted) && forall id :: id in deleted <==> id in old(heap)
    {
      hide Keyed, Mapped, Listed;
      ghost var all := heap.Keys;
      deleted := EmptyRegList(all);
      deleted := EmptyHashMap(all, deleted);
      MapKeys();
    }

    method EmptyRegList(ghost all: set<NodeId>) returns (deleted: seq<NodeId>)
      requires Keyed() && Mapped() && heap.Keys == all
      modifies `regListMap, `regIds, `nodes, `heap
      ensures Keyed() && Mapped() && Accounted(deleted, all) && regListMap == map[]
    {
      hide Keyed, Mapped;
      deleted := [];
      while regListMap != map[]
        invariant Keyed() && Mapped() && Accounted(deleted, all)
        decreases |regListMap|
      {
        assert regListMap.Keys != {};
        var id :| id in regListMap;
        DeleteRegistering(id);
        deleted := deleted + [id];
      }
    }

    method EmptyHashMap(ghost all: set<NodeId>, before: seq<NodeId>) returns (deleted: seq<NodeId>)
      requires Keyed() && Mapped() && Accounted(before, all) && regListMap == map[]
      modifies `nodeHashMap, `hashIds, `nodes, `heap
      ensures Keyed() && Mapped() && Accounted(deleted, all) && nodeHashMap == map[]
    {
      hide Keyed, Mapped;
      deleted := before;
      while nodeHashMap != map[]
        invariant Keyed() && Mapped() && Accounted(deleted, all)
        decreases |nodeHashMap|
      {
        assert nodeHashMap.Keys != {};
        var id :| id in nodeHashMap;
        DeleteRegistered(id);
        deleted := deleted + [id];
      }
    }

    ghost predicate Accounted(deleted: seq<NodeId>, all: set<NodeId>)
      reads `heap
    {
      && NoDup(deleted) && (forall id :: id in deleted ==> id !in heap)
      && (forall id :: id in all <==> id in deleted || id in heap)
    }

    lemma MapKeys()
      requires Keyed() && Mapped()
      ensures regListMap.Keys == regIds && nodeHashMap.Keys == hashIds && heap.Keys == regIds + hashIds == nodes.Keys
    {}

    method DeleteRegistering(id: NodeId)
      requires Keyed() && Mapped() && id in regListMap
      modifies `regListMap, `regIds, `nodes, `heap
      ensures Keyed() && Mapped() && regListMap == old(regListMap) - {id}
      ensures id in old(heap) && heap == old(heap) - {id}
    {
      hide Keyed, Mapped, Stale;
      MapPointers(id);
      ForgetMapped(regListMap[id]);
      EraseRegKey(id);
    }

    method DeleteRegistered(id: NodeId)
      requires Keyed() && Mapped() && id in nodeHashMap
      modifies `nodeHashMap, `hashIds, `nodes, `heap
      ensures Keyed() && Mapped() && nodeHashMap == old(nodeHashMap) - {id}
      ensures id in old(heap) && heap == old(heap) - {id}
    {
      hide Keyed, Mapped, Stale;
      MapPointers(id);
      ForgetMapped(nodeHashMap[id]);
      EraseHashKey(id);
    }

    /** The destructor's asserts: what a map holds under a key has that key as its id. */
    lemma MapPointers(id: NodeId)
      requires Keyed() && Mapped() && (id in regListMap || id in nodeHashMap)
      ensures id in heap
      ensures id in regListMap ==> IsLive(regListMap[id]) && regListMap[id].id == id
      ensures id in nodeHashMap ==> IsLive(nodeHashMap[id]) && nodeHashMap[id].id == id
    {}

    /** Between a deletion and the erasure of its key. */
    ghost predicate Stale(id: NodeId)
      reads `nodes, `regListMap, `nodeHashMap, `regIds, `hashIds
    {
      && regListMap.Keys == regIds && nodeHashMap.Keys == hashIds && id !in nodes && (id in regIds || id in hashIds)
      && (forall x :: x != id ==> (x in nodes <==> x in regIds || x in hashIds))
      && (forall x :: x in regListMap ==> x !in hashIds && (x != id ==> regListMap[x] == nodes[x]))
      && (forall x :: x in nodeHashMap && x != id ==> nodeHashMap[x] == nodes[x])
    }

    ghost method ForgetMapped(node: DeviceNode)
      requires Keyed() && Mapped() && IsLive(node)
      modifies `nodes, `heap
      ensures Keyed() && Stale(node.id) && heap == old(heap) - {node.id}
    {
      hide Keyed;
      Forget(node);
    }

    method EraseRegKey(id: NodeId)
      requires Stale(id) && id in regListMap
      modifies `regListMap, `regIds
      ensures Mapped() && regListMap == old(regListMap) - {id}
    {
      regListMap, regIds := regListMap - {id}, regIds - {id};
    }

    method EraseHashKey(id: NodeId)
      requires Stale(id) && id in nodeHashMap
      modifies `nodeHashMap, `hashIds
      ensures Mapped() && nodeHashMap == old(nodeHashMap) - {id}
    {
      nodeHashMap, hashIds := nodeHashMap - {id}, hashIds - {id};
    }
  }
}
