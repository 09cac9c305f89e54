/** processTxList erases while it iterates; here it is as a filter. */
module Sweeps {
  import opened Bytes
  import opened Wire
  import opened Messages
  import opened Protocol
  import opened Observer
  import opened Invariant
  import opened Runs

  predicate Expires(m: Medium, id: NodeId, w: Window)
  {
    id in m.heap && m.heap[id].txTimer.On? && Expired(m.heap[id].txTimer, m.now + w.Offset(id))
  }

  /** The nodes whose timer has not expired when read, in list order. */
  function Keep(m: Medium, ids: seq<NodeId>, w: Window): seq<NodeId>
  {
    if ids == [] then [] else (if Expires(m, ids[0], w) then [] else [ids[0]]) + Keep(m, ids[1..], w)
  }

  /** The end of one packet: a Tx Done, and a multicast if it did not collide. */
  function Ending(host: Endian, id: NodeId, n: Node, at: nat): seq<Act>
  {
    if n.txPkt.NoPacket? || |n.txPkt.pkt.buf| < DATA_IND_SIZE then []
    else if n.txPkt.pkt.collision then [TxEnded(id, TX_DONE_COLLIDED, at)]
    else [TxEnded(id, TX_DONE_OK, at), Multicast(id, Outgoing(host, n.txPkt.pkt.buf))]
  }

  function Endings(m: Medium, ids: seq<NodeId>, w: Window): seq<Act>
  {
    if ids == [] then []
    else
      (if Expires(m, ids[0], w) then Ending(m.host, ids[0], m.heap[ids[0]], m.now + w.Offset(ids[0])) else []) +
      Endings(m, ids[1..], w)
  }

  lemma {:induction false} SweepFrame(m: Medium, m': Medium, ids: seq<NodeId>, w: Window)
    requires m'.now == m.now && m'.host == m.host
    requires forall id :: id in ids ==> id in m.heap && id in m'.heap && m'.heap[id] == m.heap[id]
    ensures Keep(m', ids, w) == Keep(m, ids, w) && Endings(m', ids, w) == Endings(m, ids, w)
    decreases |ids|
  {
    if ids != [] {
      SweepFrame(m, m', ids[1..], w);
    }
  }

  lemma {:induction false} WithoutMiddle(s: seq<NodeId>, id: NodeId, t: seq<NodeId>)
    requires id !in s
    ensures Without(s + ([id] + t), id) == s + t
  {
    var whole := s + ([id] + t);
    if s == [] {
      assert whole == [id] + t && whole[1..] == t && s + t == t;
    } else {
      WithoutMiddle(s[1..], id, t);
      assert whole[1..] == s[1..] + ([id] + t) && whole[0] == s[0];
      assert s + t == [s[0]] + (s[1..] + t);
    }
  }

  lemma NoDupSplit(s: seq<NodeId>, id: NodeId, t: seq<NodeId>)
    requires NoDup(s + ([id] + t))
    ensures id !in s && id !in t
    ensures id in s + ([id] + t) && forall x :: x in t ==> x in s + ([id] + t)
  {
    var whole := s + ([id] + t);
    assert whole[|s|] == id;
    assert forall k :: 0 <= k < |t| ==> whole[|s| + 1 + k] == t[k];
    assert forall k :: 0 <= k < |s| ==> whole[k] == s[k];
  }

  lemma VisitLog(m: Medium, id: NodeId, w: Window)
    requires Inv(m) && Settled(m) && id in m.txList
    ensures var m' := TxVisit(m, id, w);
            && m'.log == m.log + (if Expires(m, id, w) then Ending(m.host, id, m.heap[id], m.now + w.Offset(id)) else [])
            && m'.host == m.host && m'.heap.Keys == m.heap.Keys
  {
    hide Observe, Lawful, Matches, Settled, Complete, Ending;
    BufferSize(m, id);
    EndingLog(m, id, m.heap[id].txPkt.pkt, m.now + w.Offset(id));
    assert m.log + [] == m.log;
  }

  lemma EndingLog(m: Medium, id: NodeId, pkt: Packet, at: nat)
    requires id in m.heap && m.heap[id].txPkt == InFlight(pkt) && |pkt.buf| >= DATA_IND_SIZE
    ensures var m' := Complete(m, id, pkt, at);
            m'.log == m.log + Ending(m.host, id, m.heap[id], at) && m'.host == m.host && m'.heap.Keys == m.heap.Keys
  {
    hide Outgoing, Overstates, Without;
  }

  lemma VisitList(m: Medium, kept: seq<NodeId>, id: NodeId, rest: seq<NodeId>, w: Window)
    requires Inv(m) && Settled(m) && m.txList == kept + ([id] + rest)
    ensures id in m.txList && id in m.heap
    ensures var m' := TxVisit(m, id, w);
            && (m'.fault.Sound? ==> Inv(m') && Settled(m')) && m'.now == m.now
            && (m'.fault.Sound? <==> !Overreads(m.heap[id], m.now + w.Offset(id)))
            && m'.txList == (if Expires(m, id, w) then kept else kept + [id]) + rest
            && (forall x :: x in rest ==> x in m.heap && x in m'.heap && m'.heap[x] == m.heap[x])
  {
    NoDupSplit(kept, id, rest);
    VisitKeeps(m, id, w);
    hide Observe, Lawful, Matches, Settled, TxVisit, Overreads;
    WithoutMiddle(kept, id, rest);
    assert kept + ([id] + rest) == (kept + [id]) + rest;
  }

  /** One step of the sweep: the rest of the list is untouched, and so are its nodes. */
  lemma VisitStep(m: Medium, kept: seq<NodeId>, id: NodeId, rest: seq<NodeId>, w: Window)
    requires Inv(m) && Settled(m) && m.txList == kept + ([id] + rest)
    ensures id in m.txList && id in m.heap
    ensures var m' := TxVisit(m, id, w);
            && (m'.fault.Sound? ==> Inv(m') && Settled(m'))
            && (m'.fault.Sound? <==> !Overreads(m.heap[id], m.now + w.Offset(id)))
            && (forall x :: x in rest ==> x in m.heap && x in m'.heap && m'.heap[x] == m.heap[x]) && m'.now == m.now
            && m'.txList == (if Expires(m, id, w) then kept else kept + [id]) + rest
            && m'.log == m.log + (if Expires(m, id, w) then Ending(m.host, id, m.heap[id], m.now + w.Offset(id)) else [])
            && Keep(m', rest, w) == Keep(m, rest, w) && Endings(m', rest, w) == Endings(m, rest, w)
  {
    hide Observe, Lawful, Matches, Agreement, Settled, TxVisit, Ending, Keep, Endings, Expires, Overreads;
    VisitList(m, kept, id, rest, w);
    VisitLog(m, id, w);
    SweepFrame(m, TxVisit(m, id, w), rest, w);
  }

  lemma {:induction false} SweepIsFilter(m: Medium, kept: seq<NodeId>, ids: seq<NodeId>, w: Window)
    requires Inv(m) && Settled(m) && m.txList == kept + ids
    ensures forall id :: id in ids ==> id in m.heap
    ensures TxSweep(m, ids, w).fault.Sound? <==> forall id :: id in ids ==> !Overreads(m.heap[id], m.now + w.Offset(id))
    ensures TxSweep(m, ids, w).fault.Sound? ==>
              && TxSweep(m, ids, w).txList == kept + Keep(m, ids, w)
              && TxSweep(m, ids, w).log == m.log + Endings(m, ids, w)
    decreases |ids|
  {
    hide Observe, Lawful, Matches, Agreement, Settled, TxVisit, Ending, Expires, Overreads;
    if ids == [] {
      assert m.log + [] == m.log;
    } else {
      var id, rest := ids[0], ids[1..];
      assert ids == [id] + rest;
      VisitStep(m, kept, id, rest, w);
      var m' := TxVisit(m, id, w);
      var kept' := if Expires(m, id, w) then kept else kept + [id];
      if m'.fault.Sound? {
        SweepIsFilter(m', kept', rest, w);
      }
      assert kept + Keep(m, ids, w) == kept' + Keep(m, rest, w);
      assert m.log + Endings(m, ids, w) == m'.log + Endings(m, rest, w);
    }
  }

  /** processTxList leaves exactly the unexpired nodes in their order, and ends each expired packet once, in list order,
      with a multicast for exactly those that did not collide; unless one of the latter announces more than it holds. */
  lemma ProcessTxIsFilter(m: Medium, w: Window)
    requires Inv(m) && Settled(m)
    ensures forall id :: id in m.txList ==> id in m.heap
    ensures ProcessTx(m, w).fault.Sound? <==>
            forall id :: id in m.txList ==> !Overreads(m.heap[id], m.now + w.Offset(id))
    ensures ProcessTx(m, w).fault.Sound? ==>
              ProcessTx(m, w).txList == Keep(m, m.txList, w) && ProcessTx(m, w).log == m.log + Endings(m, m.txList, w)
  {
    hide Observe, Lawful, Matches, Agreement, Settled, TxSweep, Keep, Endings, Overreads;
    SweepIsFilter(m, [], m.txList, w);
    assert [] + Keep(m, m.txList, w) == Keep(m, m.txList, w);
    assert [] + m.txList == m.txList;
  }
}
