/** The invariant that ties the medium's data structures to the observer's account, and its preservation by every step. */
module Invariant {
  import opened Bytes
  import opened Wire
  import opened Messages
  import opened Protocol
  import opened Observer

  predicate NoDup(s: seq<NodeId>)
  {
    forall i, j :: 0 <= i < j < |s| ==> s[i] != s[j]
  }

  predicate IsRegistering(n: Node) { n.phase.Registering? && n.regTimer.On? && n.txTimer.Off? && n.txPkt.NoPacket? }

  predicate IsActive(n: Node) { n.phase.Active? && n.regTimer.Off? && n.txTimer.Off? && n.txPkt.NoPacket? }

  predicate IsTx(n: Node) { n.phase.Tx? && n.regTimer.Off? && n.txTimer.On? && n.txPkt.InFlight? }

  /** Each live node is in exactly one map, and which one, and membership of txList, decide its state, both timers and
      its packet. */
  ghost predicate Agreement(m: Medium)
  {
    && m.heap.Keys == m.regList + m.nodeHash && m.regList !! m.nodeHash
    && NoDup(m.txList)
    && (forall id :: id in m.regList ==> IsRegistering(m.heap[id]))
    && (forall id :: id in m.nodeHash ==> if id in m.txList then IsTx(m.heap[id]) else IsActive(m.heap[id]))
    && (forall id :: id in m.txList ==> id in m.nodeHash)
    && (forall id :: id in m.ccaList ==> id in m.nodeHash)
  }

  /** The packet of a node in the air is the message it sent with the checksum field cleared, and its collision flag says
      whether a check has seen it with another one. */
  ghost predicate PacketFacts(kind: Kind, n: Node, v: View, id: NodeId)
  {
    && n.txPkt.InFlight? && id in v.sent
    && n.txPkt.pkt.buf == v.sent[id] && |v.sent[id]| >= DATA_IND_SIZE && v.sent[id][16] == v.sent[id][17] == 0
    && (n.txPkt.pkt.collision <==> kind.Powerline? && id in v.seen)
    && id in v.due && n.txTimer == On(v.due[id])
  }

  ghost predicate Matches(m: Medium, v: View)
  {
    && v.registering == m.regList && v.registered == m.nodeHash
    && v.waiting == m.ccaList && v.air == m.txList && v.owes.Nothing?
    && m.stats == Stats(v.oks, v.collisions, 0) && v.copies == v.oks && !v.overran
    && (forall id :: id in m.regList ==> id in m.heap && id in v.expiry && m.heap[id].regTimer == On(v.expiry[id]))
    && (forall id :: id in m.txList ==> id in m.heap && PacketFacts(m.kind, m.heap[id], v, id))
    && (forall id :: id in m.txList && (id in v.seen || |m.txList| > 1) ==> id in v.overlapped)
    && (forall id :: id in m.txList && id in v.overlapped ==> id in v.seen || |m.txList| > 1)
  }

  ghost predicate Lawful'(m: Medium)
  {
    Lawful(m.kind, m.host, m.log)
  }

  /** Kept by every step of the medium thread. */
  ghost predicate Inv(m: Medium)
  {
    m.fault.Sound? && Agreement(m) && Matches(m, Observe(m.log)) && Lawful'(m)
  }

  /** At the start of a round and, but for the state, throughout a poll. */
  ghost predicate Settled(m: Medium)
  {
    var v := Observe(m.log);
    forall id :: id in m.txList ==> id in v.met && (id in v.overlapped ==> id in v.seen)
  }

  // Lists without duplicates

  lemma {:induction false} WithoutFacts(s: seq<NodeId>, id: NodeId)
    requires NoDup(s)
    ensures NoDup(Without(s, id))
    ensures forall x :: x in Without(s, id) <==> x in s && x != id
    ensures |Without(s, id)| == if id in s then |s| - 1 else |s|
  {
    if s != [] {
      if s[0] == id {
        assert forall x :: x in s <==> x == s[0] || x in s[1..];
      } else {
        WithoutFacts(s[1..], id);
        assert forall x :: x in s <==> x == s[0] || x in s[1..];
        var r := Without(s[1..], id);
        assert Without(s, id) == [s[0]] + r;
        forall k | 0 <= k < |r|
          ensures r[k] != s[0]
        {
          assert r[k] in r && r[k] in s[1..];
        }
      }
    }
  }

  // Events

  /** Steps that leave txList and the nodes on it alone. */
  lemma MatchFrame(m: Medium, v: View, m': Medium, v': View)
    requires Matches(m, v) && m'.kind == m.kind && m'.txList == m.txList && v'.air == v.air && m'.stats == m.stats
    requires v'.registering == m'.regList && v'.registered == m'.nodeHash && v'.waiting == m'.ccaList
    requires v' == v.(registering := v'.registering, registered := v'.registered, waiting := v'.waiting)
    requires forall id :: id in m.txList ==> id in m'.heap && m'.heap[id] == m.heap[id]
    requires forall id :: id in m'.regList ==> id in m.regList && id in m'.heap && m'.heap[id] == m.heap[id]
    ensures Matches(m', v')
  {
    forall id | id in m.txList
      ensures id in m'.heap && PacketFacts(m'.kind, m'.heap[id], v', id)
    {
      assert PacketFacts(m.kind, m.heap[id], v, id);
    }
  }

  lemma AcceptKeeps(m: Medium, id: NodeId)
    requires Inv(m)
    ensures Inv(AcceptNode(m, id))
  {
    if id !in m.heap {
      Append(m.kind, m.host, m.log, Joined(id, m.now));
    }
  }

  /** A registration confirm is in order exactly from a registering node. */
  lemma ConfirmKeeps(m: Medium, id: NodeId)
    requires Inv(m) && id in m.heap
    ensures id in m.regList ==> Inv(Confirm(m, id))
    ensures id !in m.regList ==> Confirm(m, id) == Fail(m, Thrown)
  {
    if id in m.regList {
      Append(m.kind, m.host, m.log, Confirmed(id));
    }
  }

  lemma ReleaseKeepsAgreement(m: Medium, id: NodeId)
    requires Agreement(m) && id in m.heap && id !in m.ccaList && id !in m.txList
    ensures var m' := Release(m, id);
            && Agreement(m')
            && m' == m.(heap := m.heap - {id}, regList := m.regList - {id}, nodeHash := m.nodeHash - {id},
                        log := m.log + [Departed(id)])
  {}

  lemma ReleaseKeeps(m: Medium, id: NodeId)
    requires Inv(m) && id in m.heap
    ensures id !in m.ccaList && id !in m.txList ==> Inv(Release(m, id))
    ensures id in m.ccaList || id in m.txList ==> Release(m, id) == Fail(m, Undefined)
  {
    if id !in m.ccaList && id !in m.txList {
      ReleaseKeepsAgreement(m, id);
      Append(m.kind, m.host, m.log, Departed(id));
      hide Release, Observe, Lawful;
      MatchFrame(m, Observe(m.log), Release(m, id), Observe(Release(m, id).log));
      hide Agreement, Matches;
    }
  }

  lemma DeregToldKeeps(m: Medium, id: NodeId)
    requires Inv(m) && id in m.heap
    ensures Inv(Emit(m, DeregTold(id)))
  {
    Append(m.kind, m.host, m.log, DeregTold(id));
  }

  lemma AskCcaKeeps(m: Medium, id: NodeId)
    requires Inv(m) && id in m.heap
    ensures id in m.nodeHash ==> Inv(AskCca(m, id))
    ensures id !in m.nodeHash ==> AskCca(m, id).fault.Thrown? && AskCca(m, id).log == m.log
  {
    if id in m.nodeHash {
      Append(m.kind, m.host, m.log, CcaAsked(id));
    }
  }

  lemma TransmitKeepsAgreement(m: Medium, id: NodeId, msg: seq<Byte>)
    requires Agreement(m) && id in m.nodeHash && id !in m.txList
    ensures var m' := Transmit(m, id, msg);
            && Agreement(m')
            && m' == m.(heap := m.heap[id := m'.heap[id]], txList := m.txList + [id], log := m.log + [TxBegan(id, msg, m.now)])
            && m'.heap[id].txPkt == InFlight(Packet(msg, false, 0)) && m'.heap[id].txTimer == On(m.now + Airtime(msg))
  {}

  lemma TransmitKeepsMatch(m: Medium, id: NodeId, msg: seq<Byte>, m': Medium, v: View)
    requires Agreement(m) && Matches(m, v) && id in m.nodeHash && id !in m.txList
    requires |msg| >= DATA_IND_SIZE && msg[16] == msg[17] == 0
    requires id in m'.heap && m'.heap[id].txPkt == InFlight(Packet(msg, false, 0))
    requires m'.heap[id].txTimer == On(m.now + Airtime(msg))
    requires m' == m.(heap := m.heap[id := m'.heap[id]], txList := m.txList + [id], log := m'.log)
    ensures Matches(m', After(v, TxBegan(id, msg, m.now)))
  {
    var v' := After(v, TxBegan(id, msg, m.now));
    forall x | x in m'.txList
      ensures x in m'.heap && PacketFacts(m'.kind, m'.heap[x], v', x)
    {
      assert x != id ==> PacketFacts(m.kind, m.heap[x], v, x);
    }
  }

  lemma TransmitKeeps(m: Medium, id: NodeId, msg: seq<Byte>)
    requires Inv(m) && id in m.heap
    requires |msg| >= DATA_IND_SIZE && msg[16] == msg[17] == 0
    ensures id in m.nodeHash && id !in m.txList ==> Inv(Transmit(m, id, msg))
    ensures !(id in m.nodeHash && id !in m.txList) ==> Transmit(m, id, msg) == Fail(m, Thrown)
  {
    if id in m.nodeHash && id !in m.txList {
      TransmitKeepsAgreement(m, id, msg);
      Append(m.kind, m.host, m.log, TxBegan(id, msg, m.now));
      TransmitKeepsMatch(m, id, msg, Transmit(m, id, msg), Observe(m.log));
      hide Transmit, Agreement, Observe, Lawful;
    }
  }

  // Answers, checks, completions

  lemma {:induction false} CcaKeeps(m: Medium)
    requires Inv(m) && (m.state.IDLE? <==> m.txList == [])
    ensures Inv(ProcessCca(m)) && ProcessCca(m).ccaList == []
    ensures var m' := ProcessCca(m);
            m' == m.(ccaList := [], log := m'.log)
    ensures Settled(m) ==> Settled(ProcessCca(m))
    decreases |m.ccaList|
  {
    if m.ccaList != [] {
      var id := m.ccaList[0];
      var m1 := Emit(m.(ccaList := m.ccaList[1..]), CcaTold(id, m.state.IDLE?));
      Append(m.kind, m.host, m.log, CcaTold(id, m.state.IDLE?));
      CcaKeeps(m1);
    }
  }

  /** A check marks exactly the packets in the air, when there are several on a powerline, and nothing else. */
  lemma CheckEffect(m: Medium)
    requires Agreement(m)
    ensures var m' := CollisionCheck(m);
            && m' == m.(heap := m'.heap, log := m.log + [Checked]) && m'.heap.Keys == m.heap.Keys
            && forall id :: id in m.heap ==>
                 m'.heap[id] == if m.kind.Powerline? && |m.txList| > 1 && id in m.txList then Marked(m.heap[id]) else m.heap[id]
  {}

  lemma CheckKeepsAgreement(m: Medium)
    requires Agreement(m)
    ensures Agreement(CollisionCheck(m))
  {
    CheckEffect(m);
    hide CollisionCheck;
  }

  lemma CheckKeepsMatch(m: Medium, m': Medium, v: View)
    requires Matches(m, v)
    requires m' == m.(heap := m'.heap, log := m'.log) && m'.heap.Keys == m.heap.Keys
    requires forall id :: id in m.heap ==>
      m'.heap[id] == if m.kind.Powerline? && |m.txList| > 1 && id in m.txList then Marked(m.heap[id]) else m.heap[id]
    ensures Matches(m', After(v, Checked))
  {
    var v' := After(v, Checked);
    forall id | id in m.txList
      ensures id in m'.heap && PacketFacts(m.kind, m'.heap[id], v', id)
    {
      assert PacketFacts(m.kind, m.heap[id], v, id);
    }
  }

  lemma CheckKeeps(m: Medium)
    requires Inv(m)
    ensures Inv(CollisionCheck(m)) && Settled(CollisionCheck(m))
    ensures CollisionCheck(m) == m.(heap := CollisionCheck(m).heap, log := m.log + [Checked])
  {
    hide CollisionCheck, Agreement, Observe, Lawful, Allowed, After, Matches, Settled;
    CheckEffect(m);
    CheckKeepsAgreement(m);
    CheckKeepsMatch(m, CollisionCheck(m), Observe(m.log));
    CheckIsLawful(m);
    CheckSettles(m, CollisionCheck(m), Observe(m.log));
  }

  lemma CheckIsLawful(m: Medium)
    requires Inv(m)
    ensures Lawful(m.kind, m.host, m.log + [Checked]) && Observe(m.log + [Checked]) == After(Observe(m.log), Checked)
  {
    Append(m.kind, m.host, m.log, Checked);
    hide Observe, Lawful, Agreement;
  }

  lemma CheckSettles(m: Medium, m': Medium, v: View)
    requires Matches(m, v) && m'.txList == m.txList && Observe(m'.log) == After(v, Checked)
    ensures Settled(m')
  {
    hide Observe;
  }

  // Completion

  /** The bytes of an outgoing frame: rssi set and checksum stored, nothing else touched, and the receiver's check passes
      because the checksum field was still clear. */
  lemma OutgoingIsFaithful(host: Endian, buf: seq<Byte>)
    requires |buf| >= DATA_IND_SIZE && buf[16] == buf[17] == 0
    ensures FaithfulCopy(host, buf, Outgoing(host, buf))
  {
    var b := buf[RSSI_OFFSET := 127];
    SealedShape(host, b);
    SealedPasses(host, b);
  }

  lemma RemovalKeepsAgreement(m: Medium, id: NodeId)
    requires Agreement(m) && id in m.txList
    ensures var n := m.heap[id];
            Agreement(m.(heap := m.heap[id := Node(Active, n.regTimer, Off, NoPacket)], txList := Without(m.txList, id)))
  {
    WithoutFacts(m.txList, id);
  }

  /** The observer allows the Tx Done, and the multicast that follows an OK. */
  lemma EndAllowed(m: Medium, id: NodeId, v: View, at: nat)
    requires Inv(m) && Settled(m) && v == Observe(m.log) && id in m.txList && Expired(m.heap[id].txTimer, at)
    ensures var pkt := m.heap[id].txPkt.pkt;
            && v.sent.Keys >= {id} && pkt.buf == v.sent[id] && |pkt.buf| >= DATA_IND_SIZE
            && pkt.buf[16] == pkt.buf[17] == 0
            && Allowed(m.kind, m.host, v, TxEnded(id, if pkt.collision then TX_DONE_COLLIDED else TX_DONE_OK, at))
  {
    assert PacketFacts(m.kind, m.heap[id], v, id);
    hide Observe, Lawful, FaithfulCopy;
  }

  /** Observe and Lawful across the one or two acts of a completion. */
  lemma CompletionLog(m: Medium, id: NodeId, pkt: Packet, at: nat)
    requires Inv(m) && Settled(m) && id in m.txList && pkt == m.heap[id].txPkt.pkt && Expired(m.heap[id].txTimer, at)
    requires |pkt.buf| >= DATA_IND_SIZE
    ensures var v := Observe(m.log);
            var m' := Completed(m, id, pkt, at);
            && Lawful'(m') && m'.fault.Sound?
            && Observe(m'.log) ==
               if pkt.collision then After(v, TxEnded(id, TX_DONE_COLLIDED, at))
               else After(After(v, TxEnded(id, TX_DONE_OK, at)), Multicast(id, Outgoing(m.host, pkt.buf)))
  {
    var v := Observe(m.log);
    EndAllowed(m, id, v, at);
    hide Observe, Lawful, FaithfulCopy, Outgoing, Agreement, Matches, Settled, Overstates;
    if pkt.collision {
      Append(m.kind, m.host, m.log, TxEnded(id, TX_DONE_COLLIDED, at));
    } else {
      Append(m.kind, m.host, m.log, TxEnded(id, TX_DONE_OK, at));
      OutgoingIsFaithful(m.host, pkt.buf);
      Append(m.kind, m.host, m.log + [TxEnded(id, TX_DONE_OK, at)], Multicast(id, Outgoing(m.host, pkt.buf)));
    }
  }

  /** The psdu_len field goes out as it came in. */
  lemma SameOverrun(host: Endian, buf: seq<Byte>)
    requires |buf| >= DATA_IND_SIZE && buf[16] == buf[17] == 0
    ensures Overrun(Outgoing(host, buf)) <==> Overstates(buf)
  {
    OutgoingIsFaithful(host, buf);
    hide Outgoing, Passes, FromBE;
    assert Outgoing(host, buf)[PSDU_LEN_OFFSET..PSDU_LEN_OFFSET + 2] == buf[PSDU_LEN_OFFSET..PSDU_LEN_OFFSET + 2];
  }

  lemma CompletionMatches(m: Medium, id: NodeId, m': Medium, v: View, v': View)
    requires Agreement(m) && Matches(m, v) && id in m.txList
    requires m'.kind == m.kind && m'.txList == v'.air == Without(m.txList, id)
    requires v' == v.(air := v'.air, oks := v'.oks, collisions := v'.collisions, copies := v'.copies)
    requires m'.regList == m.regList && m'.nodeHash == m.nodeHash && m'.ccaList == m.ccaList
    requires m'.stats == Stats(v'.oks, v'.collisions, 0) && v'.copies == v'.oks
    requires m'.heap.Keys == m.heap.Keys && forall x :: x in m.heap && x != id ==> m'.heap[x] == m.heap[x]
    requires forall x :: x in m.txList && x in v.overlapped ==> x in v.seen
    ensures Matches(m', v')
  {
    WithoutFacts(m.txList, id);
    forall x | x in m'.txList
      ensures x in m'.heap && PacketFacts(m'.kind, m'.heap[x], v', x)
    {
      assert PacketFacts(m.kind, m.heap[x], v, x);
    }
  }

  lemma CompleteEffect(m: Medium, id: NodeId, pkt: Packet, at: nat)
    requires id in m.heap && |pkt.buf| >= DATA_IND_SIZE
    ensures var m' := Completed(m, id, pkt, at);
            && m' == m.(heap := m.heap[id := Node(Active, m.heap[id].regTimer, Off, NoPacket)],
                        txList := Without(m.txList, id), stats := m'.stats, log := m'.log)
            && m'.stats == if pkt.collision then m.stats.(collided := m.stats.collided + 1)
                           else m.stats.(ok := m.stats.ok + 1)
  {}

  lemma CompleteKeepsAgreement(m: Medium, id: NodeId, pkt: Packet, at: nat)
    requires Agreement(m) && id in m.txList && |pkt.buf| >= DATA_IND_SIZE
    ensures Agreement(Completed(m, id, pkt, at))
  {
    var m' := Completed(m, id, pkt, at);
    CompleteEffect(m, id, pkt, at);
    RemovalKeepsAgreement(m, id);
    hide Completed;
    AgreementFrame(m.(heap := m'.heap, txList := m'.txList), m');
  }

  lemma CompleteKeepsMatch(m: Medium, id: NodeId, pkt: Packet, at: nat)
    requires Inv(m) && Settled(m) && id in m.txList && pkt == m.heap[id].txPkt.pkt && |pkt.buf| >= DATA_IND_SIZE
    requires Expired(m.heap[id].txTimer, at) && (pkt.collision || !Overstates(pkt.buf))
    ensures Matches(Completed(m, id, pkt, at), Observe(Completed(m, id, pkt, at).log))
  {
    hide Observe, Lawful, Outgoing, Completed, FaithfulCopy, Overrun, Overstates, Agreement, Matches;
    BufferSize(m, id);
    var m', v := Completed(m, id, pkt, at), Observe(m.log);
    CompleteEffect(m, id, pkt, at);
    CompletionLog(m, id, pkt, at);
    PacketOverrun(m, id);
    StatsMatch(m, v);
    CompletionMatches(m, id, m', v, Observe(m'.log));
  }

  lemma StatsMatch(m: Medium, v: View)
    requires Matches(m, v)
    ensures m.stats == Stats(v.oks, v.collisions, 0) && v.copies == v.oks && v.air == m.txList && !v.overran
    ensures v.owes.Nothing?
  {}

  lemma PacketOverrun(m: Medium, id: NodeId)
    requires Inv(m) && id in m.txList
    ensures var n := m.heap[id];
            && n.txPkt.InFlight? && |n.txPkt.pkt.buf| >= DATA_IND_SIZE
            && (Overrun(Outgoing(m.host, n.txPkt.pkt.buf)) <==> Overstates(n.txPkt.pkt.buf))
  {
    assert PacketFacts(m.kind, m.heap[id], Observe(m.log), id);
    hide Observe, Lawful, Outgoing;
    SameOverrun(m.host, m.heap[id].txPkt.pkt.buf);
  }

  lemma BufferSize(m: Medium, id: NodeId)
    requires Inv(m) && id in m.txList
    ensures id in m.heap && m.heap[id].txPkt.InFlight? && |m.heap[id].txPkt.pkt.buf| >= DATA_IND_SIZE
  {
    assert PacketFacts(m.kind, m.heap[id], Observe(m.log), id);
  }

  lemma CompleteStaysSettled(m: Medium, id: NodeId, m': Medium)
    requires Agreement(m) && Settled(m) && m'.txList == Without(m.txList, id)
    requires Observe(m'.log).met == Observe(m.log).met
    requires Observe(m'.log).seen == Observe(m.log).seen && Observe(m'.log).overlapped == Observe(m.log).overlapped
    ensures Settled(m')
  {
    hide Observe;
    WithoutMembers(m, id);
  }

  /** A completion: one Tx Done, and a multicast unless the packet collided. It keeps the invariant exactly when the frame
      it multicasts, if any, has all the bytes it announces. */
  lemma CompleteKeeps(m: Medium, id: NodeId, pkt: Packet, at: nat)
    requires Inv(m) && Settled(m) && id in m.txList && pkt == m.heap[id].txPkt.pkt && Expired(m.heap[id].txTimer, at)
    ensures |pkt.buf| >= DATA_IND_SIZE
    ensures var m' := Complete(m, id, pkt, at);
            && Lawful'(m') && m'.txList == Without(m.txList, id)
            && (if pkt.collision || !Overstates(pkt.buf) then Inv(m') && Settled(m')
                else m'.fault.Undefined? && Observe(m'.log).overran)
  {
    hide Observe, Lawful, Outgoing, Completed, Matches, FaithfulCopy, Settled, Agreement, Overstates;
    BufferSize(m, id);
    CompletionLog(m, id, pkt, at);
    CompleteEffect(m, id, pkt, at);
    if pkt.collision || !Overstates(pkt.buf) {
      CompleteInOrder(m, id, pkt, at);
    } else {
      PacketOverrun(m, id);
    }
  }

  lemma CompleteInOrder(m: Medium, id: NodeId, pkt: Packet, at: nat)
    requires Inv(m) && Settled(m) && id in m.txList && pkt == m.heap[id].txPkt.pkt && Expired(m.heap[id].txTimer, at)
    requires |pkt.buf| >= DATA_IND_SIZE && (pkt.collision || !Overstates(pkt.buf))
    ensures Inv(Completed(m, id, pkt, at)) && Settled(Completed(m, id, pkt, at))
  {
    hide Overstates, Observe, Lawful, Outgoing, Completed, Matches, FaithfulCopy, Settled;
    CompleteEffect(m, id, pkt, at);
    CompletionLog(m, id, pkt, at);
    CompleteKeepsAgreement(m, id, pkt, at);
    CompleteKeepsMatch(m, id, pkt, at);
    CompleteStaysSettled(m, id, Completed(m, id, pkt, at));
    hide Agreement;
  }

  lemma AgreementFrame(m: Medium, m': Medium)
    requires Agreement(m)
    requires m'.heap == m.heap && m'.regList == m.regList && m'.nodeHash == m.nodeHash
    requires m'.ccaList == m.ccaList && m'.txList == m.txList
    ensures Agreement(m')
  {}

  /** The node's packet is due, goes out alone, and announces more than it holds. */
  predicate Overreads(n: Node, at: nat)
  {
    && n.txTimer.On? && Expired(n.txTimer, at) && n.txPkt.InFlight? && !n.txPkt.pkt.collision
    && |n.txPkt.pkt.buf| >= DATA_IND_SIZE && Overstates(n.txPkt.pkt.buf)
  }

  /** In a settled state every timer assert, packet assert and state dispatch of processTxList succeeds; what is left to go
      wrong is the dump of a packet that announces more than it holds. */
  lemma VisitKeeps(m: Medium, id: NodeId, w: Window)
    requires Inv(m) && Settled(m) && id in m.txList
    ensures var m' := TxVisit(m, id, w);
            && Lawful'(m') && m'.state == m.state && m'.now == m.now
            && (if Overreads(m.heap[id], m.now + w.Offset(id)) then m'.fault.Undefined? && Observe(m'.log).overran
                else Inv(m') && Settled(m'))
            && m'.txList == (if Expired(m.heap[id].txTimer, m.now + w.Offset(id)) then Without(m.txList, id) else m.txList)
            && (forall x :: x in m.txList && x != id ==> x in m.heap && x in m'.heap && m'.heap[x] == m.heap[x])
  {
    hide Observe, Lawful, Matches, Settled, Outgoing, Overstates;
    if Expired(m.heap[id].txTimer, m.now + w.Offset(id)) {
      CompleteKeeps(m, id, m.heap[id].txPkt.pkt, m.now + w.Offset(id));
    }
  }

  lemma {:induction false} SweepKeeps(m: Medium, ids: seq<NodeId>, w: Window)
    requires Inv(m) && Settled(m) && NoDup(ids) && forall id :: id in ids ==> id in m.txList
    ensures var m' := TxSweep(m, ids, w);
            && Lawful'(m') && m'.state == m.state && m'.now == m.now
            && (if m'.fault.Sound? then Inv(m') && Settled(m') else Observe(m'.log).overran)
    decreases |ids|
  {
    hide Observe, Lawful, Matches, Agreement, Settled, TxVisit, Overreads;
    if ids != [] {
      VisitKeeps(m, ids[0], w);
      WithoutMembers(m, ids[0]);
      if TxVisit(m, ids[0], w).fault.Sound? {
        SweepKeeps(TxVisit(m, ids[0], w), ids[1..], w);
      }
    }
  }

  lemma WithoutMembers(m: Medium, id: NodeId)
    requires Agreement(m)
    ensures forall x :: x in Without(m.txList, id) <==> x in m.txList && x != id
  {
    WithoutFacts(m.txList, id);
  }

  lemma {:induction false} SweepKeepsCca(m: Medium, ids: seq<NodeId>, w: Window)
    ensures TxSweep(m, ids, w).ccaList == m.ccaList
    decreases |ids|
  {
    if ids != [] {
      SweepKeepsCca(TxVisit(m, ids[0], w), ids[1..], w);
    }
  }

  /** processTxList. */
  lemma ProcessTxKeeps(m: Medium, w: Window)
    requires Inv(m) && Settled(m)
    ensures var m' := ProcessTx(m, w);
            && Lawful'(m') && m'.state == m.state && m'.now == m.now + w.total
            && (if m'.fault.Sound? then Inv(m') else Observe(m'.log).overran) && m'.ccaList == m.ccaList
  {
    assert NoDup(m.txList);
    hide Observe, Lawful, Agreement, Matches, TxSweep;
    SweepKeeps(m, m.txList, w);
    SweepKeepsCca(m, m.txList, w);
  }

  lemma SweepRegsEffect(m: Medium, w: Window)
    requires Agreement(m)
    ensures var dead := set id | id in m.regList && Expired(m.heap[id].regTimer, m.now + w.Offset(id));
            var m' := SweepRegs(m, w);
            && Agreement(m')
            && m' == m.(heap := m.heap - dead, regList := m.regList - dead, now := m.now + w.total,
                        log := m.log + [TimedOut(dead, Readings(m.regList, m.now, w))])
  {}

  lemma TimeoutsAllowed(m: Medium, w: Window, v: View)
    requires Agreement(m) && Matches(m, v)
    ensures var dead := set id | id in m.regList && Expired(m.heap[id].regTimer, m.now + w.Offset(id));
            Allowed(m.kind, m.host, v, TimedOut(dead, Readings(m.regList, m.now, w)))
  {}

  /** The registration sweep: none of its asserts fails, no state throws, and it destroys exactly the registering nodes
      whose timer has expired when read. */
  lemma SweepRegsKeeps(m: Medium, w: Window)
    requires Inv(m)
    ensures var m' := SweepRegs(m, w);
            && Inv(m')
            && m'.regList == (set id | id in m.regList && !Expired(m.heap[id].regTimer, m.now + w.Offset(id)))
            && m'.nodeHash == m.nodeHash && m'.txList == m.txList && m'.ccaList == m.ccaList && m'.state == m.state
            && (forall id :: id in m'.heap ==> id in m.heap && m'.heap[id] == m.heap[id])
  {
    var dead := set id | id in m.regList && Expired(m.heap[id].regTimer, m.now + w.Offset(id));
    TimeoutsAllowed(m, w, Observe(m.log));
    SweepRegsEffect(m, w);
    Append(m.kind, m.host, m.log, TimedOut(dead, Readings(m.regList, m.now, w)));
    hide Observe, Lawful, SweepRegs, Allowed, Readings;
    MatchFrame(m, Observe(m.log), SweepRegs(m, w), Observe(SweepRegs(m, w).log));
    hide Matches;
  }
}
