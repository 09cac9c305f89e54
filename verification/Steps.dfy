/** Facts about single steps and single rounds, in the form in which the methods of the medium use them. */
module Steps {
  import opened Bytes
  import opened Wire
  import opened Messages
  import opened Protocol
  import opened Observer
  import opened Invariant
  import opened Runs

  lemma KeysAfterUpdate(heap: map<NodeId, Node>, id: NodeId, n: Node)
    requires id in heap
    ensures heap[id := n].Keys == heap.Keys
  {}

  lemma StartedIs(now: nat, msg: seq<Byte>)
    ensures Started(now, if IsAck(msg) then 0 else TIME_ON_WIRE_MS) == On(now + if IsAck(msg) then 1 else 4_000_000)
  {}

  lemma ConfirmCases(m: Medium, id: NodeId)
    requires id in m.heap
    ensures !m.heap[id].phase.Registering? ==> Confirm(m, id) == Fail(m, Thrown)
    ensures m.heap[id].phase.Registering? && id !in m.regList ==> Confirm(m, id) == Fail(m, AssertFailed)
    ensures m.heap[id].phase.Registering? && id in m.regList ==>
              Confirm(m, id) == m.(heap := m.heap[id := m.heap[id].(regTimer := Off, phase := Active)],
                                   regList := m.regList - {id}, nodeHash := m.nodeHash + {id},
                                   log := m.log + [Confirmed(id)])
  {}

  lemma TransmitCases(m: Medium, id: NodeId, msg: seq<Byte>)
    requires id in m.heap
    ensures !m.heap[id].phase.Active? ==> Transmit(m, id, msg) == Fail(m, Thrown)
    ensures m.heap[id].phase.Active? && m.heap[id].txTimer.On? ==> Transmit(m, id, msg) == Fail(m, AssertFailed)
    ensures m.heap[id].phase.Active? && m.heap[id].txTimer.Off? ==>
              var timer := Started(m.now, if IsAck(msg) then 0 else TIME_ON_WIRE_MS);
              var n := Node(Tx, m.heap[id].regTimer, timer, InFlight(Packet(msg, false, 0)));
              Transmit(m, id, msg) == m.(heap := m.heap[id := n], txList := m.txList + [id], 
                log := m.log + [TxBegan(id, msg, m.now)])
  {}

  lemma ReleaseCases(m: Medium, id: NodeId)
    requires id in m.heap && (id in m.regList || id in m.nodeHash)
    ensures id in m.ccaList || id in m.txList ==> Release(m, id) == Fail(m, Undefined)
    ensures id !in m.ccaList && id !in m.txList && id in m.regList ==>
              Release(m, id) == m.(heap := m.heap - {id}, regList := m.regList - {id}, log := m.log + [Departed(id)])
    ensures id !in m.ccaList && id !in m.txList && id !in m.regList ==>
              Release(m, id) == m.(heap := m.heap - {id}, nodeHash := m.nodeHash - {id}, log := m.log + [Departed(id)])
  {}

  /** Only the unblocker changes the state during a poll. */
  lemma EventState(m: Medium, e: Event)
    ensures HandleEvent(m, e).state == if e.Unblock? then STOPPING else m.state
  {
    hide ReadMsg;
  }

  lemma DataIndSize(host: Endian, id: NodeId, bytes: seq<Byte>)
    ensures var input := ReadMsg(host, id, bytes); input.DataInd? ==> |input.msg| < 0x1_0000
  {
    hide Passes, FromBE, Loaded;
    if |bytes| >= 2 {
      FromBEBound(bytes[..2]);
      Powers();
    }
  }

  lemma {:induction false} WithoutAt(s: seq<NodeId>, i: nat)
    requires NoDup(s) && i < |s|
    ensures Without(s, s[i]) == s[..i] + s[i + 1..]
  {
    if i > 0 {
      WithoutAt(s[1..], i - 1);
    }
  }

  /** A node on txList: its state, timer and packet, and where its removal leaves the list. */
  lemma InvTx(m: Medium, i: nat)
    requires Inv(m) && i < |m.txList|
    ensures var id := m.txList[i];
            && id in m.heap && IsTx(m.heap[id]) && |m.heap[id].txPkt.pkt.buf| >= DATA_IND_SIZE
            && Without(m.txList, id) == m.txList[..i] + m.txList[i + 1..]
  {
    BufferSize(m, m.txList[i]);
    WithoutAt(m.txList, i);
  }

  /** Completed, but for the removal from txList. */
  ghost function Finished(m: Medium, id: NodeId, pkt: Packet, at: nat): Medium
    requires id in m.heap && |pkt.buf| >= DATA_IND_SIZE
  {
    var done := m.(heap := m.heap[id := Node(Active, m.heap[id].regTimer, Off, NoPacket)]);
    if pkt.collision then
      Emit(done.(stats := m.stats.(collided := m.stats.collided + 1)), TxEnded(id, TX_DONE_COLLIDED, at))
    else
      Emit(Emit(done.(stats := m.stats.(ok := m.stats.ok + 1)), TxEnded(id, TX_DONE_OK, at)),
           Multicast(id, Outgoing(m.host, pkt.buf)))
  }

  lemma CompletionOf(m: Medium, id: NodeId, pkt: Packet, at: nat)
    requires id in m.heap && |pkt.buf| >= DATA_IND_SIZE
    ensures var done := Finished(m, id, pkt, at).(txList := Without(m.txList, id));
            Complete(m, id, pkt, at) == if !pkt.collision && Overstates(pkt.buf) then Fail(done, Undefined) else done
  {
    hide Overstates, Outgoing, Without;
  }

  lemma VisitOutcome(m: Medium, id: NodeId, w: Window)
    requires Inv(m) && Settled(m) && id in m.txList
    ensures m.fault.Sound?
    ensures TxVisit(m, id, w).fault.Sound? ==> Inv(TxVisit(m, id, w)) && Settled(TxVisit(m, id, w))
  {
    VisitKeeps(m, id, w);
  }

  // The loops of run() and the rounds of Protocol

  /** What is left of a round, or of the run, when the inner loop ends. */
  ghost function Finish(m: Medium, w: Window): Medium
  {
    if !m.fault.Sound? then m
    else if m.state.STOPPING? then m.(state := STOPPED)
    else if m.txList == [] then EndBusy(m, w)
    else m
  }

  /** At the head of the inner loop. */
  ghost predicate InLoop(m: Medium)
  {
    m.fault.Sound? ==>
      && Inv(m) && (m.state.IDLE? || m.state.TX_802514_FRAME? || m.state.STOPPING?)
      && (m.txList != [] ==> !m.state.IDLE?) && (!m.state.STOPPING? ==> m.ccaList == [])
  }

  lemma IdleStages(m: Medium, r: RoundInput)
    requires Between(m) && Running(m) && m.state.IDLE?
    ensures var m1 := Interval(m, IDLE_POLL_MS, r.batch);
            if !m1.fault.Sound? || m1.state.STOPPING? then Finish(m1, r.regWindow) == Round(m, r) && InLoop(m1)
            else
              var m2 := ProcessCca(if m1.txList != [] then m1.(state := TX_802514_FRAME) else m1);
              Finish(m2, r.regWindow) == Round(m, r) && InLoop(m2)
  {
    hide Observe, Lawful, Agreement, Matches, Interval, LegitimateRound, ProcessCca, EndBusy;
    IntervalKeeps(m, r);
    var m1 := Interval(m, IDLE_POLL_MS, r.batch);
    if m1.fault.Sound? && !m1.state.STOPPING? {
      StateIrrelevant(m1, TX_802514_FRAME);
      CcaKeeps(if m1.txList != [] then m1.(state := TX_802514_FRAME) else m1);
    }
  }

  lemma BusyStages(m: Medium, r: RoundInput)
    requires Between(m) && Running(m) && m.state.TX_802514_FRAME?
    ensures var m1 := Interval(m, BUSY_POLL_MS, r.batch);
            if !m1.fault.Sound? || m1.state.STOPPING? then Finish(m1, r.regWindow) == Round(m, r) && InLoop(m1)
            else
              var m2 := ProcessCca(m1);
              var m3 := CollisionCheck(m2);
              var m4 := ProcessTx(m3, r.txWindow);
              && Agreement(m2) && Inv(m3) && Settled(m3)
              && Finish(m4, r.regWindow) == Round(m, r) && InLoop(m4)
  {
    hide Observe, Lawful, Agreement, Matches, Settled, Interval, LegitimateRound, ProcessCca, EndBusy, CollisionCheck,
         ProcessTx;
    IntervalKeeps(m, r);
    var m1 := Interval(m, BUSY_POLL_MS, r.batch);
    if m1.fault.Sound? && !m1.state.STOPPING? {
      CcaKeeps(m1);
      CheckKeeps(ProcessCca(m1));
      ProcessTxKeeps(CollisionCheck(ProcessCca(m1)), r.txWindow);
    }
  }

  lemma FinishFacts(m: Medium, w: Window)
    requires InLoop(m)
    ensures !m.fault.Sound? ==> Finish(m, w) == m && !Running(m)
    ensures m.fault.Sound? && m.state.STOPPING? ==> Finish(m, w) == m.(state := STOPPED) && !Running(Finish(m, w))
    ensures m.fault.Sound? && !m.state.STOPPING? && m.txList != [] ==>
              Finish(m, w) == m && Between(m) && Running(m) && m.state.TX_802514_FRAME?
    ensures m.fault.Sound? && !m.state.STOPPING? && m.txList == [] ==>
              var m' := m.(state := IDLE);
              && Agreement(m') && Finish(m, w) == SweepRegs(m', w)
              && Between(Finish(m, w)) && Running(Finish(m, w)) && Finish(m, w).state.IDLE?
  {
    hide Observe, Lawful, Agreement, Matches, SweepRegs;
    if m.fault.Sound? && !m.state.STOPPING? && m.txList == [] {
      StateIrrelevant(m, IDLE);
      SweepRegsKeeps(m.(state := IDLE), w);
    }
  }

  lemma RunStart(m: Medium, rounds: seq<RoundInput>)
    ensures Run(m, rounds[..0]) == m
  {}

  lemma RunNext(m: Medium, rounds: seq<RoundInput>, k: nat)
    requires k < |rounds|
    ensures Run(m, rounds[..k + 1]) == Round(Run(m, rounds[..k]), rounds[k])
  {
    hide Round;
    assert rounds[..k + 1][..k] == rounds[..k];
  }

  /** A run that has ended stays as it is. */
  lemma {:induction false} RunOver(m: Medium, rounds: seq<RoundInput>, k: nat)
    requires k == |rounds| || (k < |rounds| && !Running(Run(m, rounds[..k])))
    ensures Run(m, rounds) == Run(m, rounds[..k])
    decreases |rounds|
  {
    var n := |rounds|;
    if k == n {
      assert rounds[..k] == rounds;
    } else {
      assert rounds[..n - 1][..k] == rounds[..k];
      RunOver(m, rounds[..n - 1], k);
    }
  }
}
