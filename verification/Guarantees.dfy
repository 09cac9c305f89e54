/** What the laws of lawful logs say of the runs of the medium thread, against the medium's own fields. */
module Guarantees {
  import opened Bytes
  import opened Wire
  import opened Timespec
  import opened Protocol
  import opened Observer
  import opened Invariant
  import opened Runs
  import opened Traces
  import opened Clock
  import opened Steps

  /** The books of a medium balance: counters, lists and maps agree with what has been sent and received. */
  ghost predicate Balanced(m: Medium)
  {
    && m.stats.ok + m.stats.collided == Count(m.log, (a: Act) => a.TxEnded?)
    && m.stats.ok == Count(m.log, (a: Act) => a.Multicast?) && m.stats.failed == 0
    && Count(m.log, (a: Act) => a.TxBegan?) == Count(m.log, (a: Act) => a.TxEnded?) + |m.txList|
    && AskedIds(m.log) == ToldIds(m.log) + m.ccaList
    && Count(m.log, (a: Act) => a.Joined?) == |m.regList| + |m.nodeHash| + Destroyed(m.log)
  }

  /** One node: its state, timers and packet, its place in the maps and on the list, and its history agree. */
  ghost predicate InStep(m: Medium, id: NodeId)
  {
    && Count(m.log, (a: Act) => a.TxBegan? && a.id == id) ==
       Count(m.log, (a: Act) => a.TxEnded? && a.id == id) + (if id in m.txList then 1 else 0)
    && Count(m.log, (a: Act) => a.Joined? && a.id == id) ==
       Count(m.log, (a: Act) => Destroys(a, id)) + (if id in m.heap then 1 else 0)
    && (id in m.heap ==>
          var n := m.heap[id];
          && (id in m.txList <==> n.phase.Tx?) && (n.phase.Tx? <==> n.txTimer.On?) && (n.phase.Tx? <==> n.txPkt.InFlight?)
          && (id in m.regList <==> n.phase.Registering?) && (n.phase.Registering? <==> n.regTimer.On?))
  }

  lemma InvBalances(m: Medium, id: NodeId)
    requires Inv(m)
    ensures Balanced(m) && InStep(m, id)
  {
    Totals(m.kind, m.host, m.log);
    LivePackets(m.kind, m.host, m.log);
    AnsweredInOrder(m.kind, m.host, m.log);
    Ownership(m.kind, m.host, m.log);
    ExactlyOnce(m.kind, m.host, m.log, id);
    hide Observe, Lawful, Count, AskedIds, ToldIds, Destroyed;
  }

  /** A run from the start whose clients conform, and whose messages hold the payload they announce, meets no throw, no
      failed assert and no undefined behaviour of the model, and its books balance. */
  lemma ConformingRun(kind: Kind, host: Endian, now: nat, curTime: TimeVal, rounds: seq<RoundInput>, id: NodeId)
    requires curTime.Normalised() && Conforming(Initial(kind, host, now, curTime), rounds)
    requires AllHold(Run(Initial(kind, host, now, curTime), rounds).log)
    ensures var m := Run(Initial(kind, host, now, curTime), rounds);
            && m.fault.Sound? && Balanced(m) && InStep(m, id)
            && (!m.state.STOPPED? ==> (m.state.IDLE? <==> m.txList == []))
  {
    hide Conforming, Run, Inv, Balanced, InStep, Lawful, Observe, AllHold;
    RunFromStart(kind, host, now, curTime, rounds);
    var m := Run(Initial(kind, host, now, curTime), rounds);
    HonestLog(kind, host, m.log);
    InvBalances(m, id);
  }

  /** The log of a run from the start, sound or not. */
  ghost function LogOf(kind: Kind, host: Endian, now: nat, curTime: TimeVal, rounds: seq<RoundInput>): (log: seq<Act>)
    requires curTime.Normalised()
    ensures Lawful(kind, host, log)
  {
    RunFromStart(kind, host, now, curTime, rounds);
    Run(Initial(kind, host, now, curTime), rounds).log
  }

  /** In any run from the start, whatever the clients do, a powerline Tx Done says COLLIDED exactly when another node was
      in the air during the transmission, a wireless one never does, and it comes no sooner than the packet's time. */
  lemma RunCollisions(kind: Kind, host: Endian, now: nat, curTime: TimeVal, rounds: seq<RoundInput>,
                      b: nat, e: nat, id: NodeId, msg: seq<Byte>, result: int)
    requires curTime.Normalised()
    requires var log := LogOf(kind, host, now, curTime, rounds);
             InStay(log, b, e, id, msg) && e < |log| && Ends(log[e], id, result)
    ensures var log := LogOf(kind, host, now, curTime, rounds);
            && (result == 1 || result == 0)
            && (result == 1 <==> kind.Powerline? && exists j :: b < j <= e && SharedAt(log, j))
            && log[e].at >= log[b].at + (if IsAck(msg) then 1 else 4_000_000)
  {
    hide LogOf, Lawful;
    var log := LogOf(kind, host, now, curTime, rounds);
    CollidedExactlyWhenOverlapped(kind, host, log, b, e, id, msg, result);
    NoTxDoneBeforeItsTime(kind, host, log, b, e, id, msg, result);
  }

  /** In any run from the start a Tx Done of OK, and nothing else, is followed by the multicast of its message. */
  lemma RunMulticasts(kind: Kind, host: Endian, now: nat, curTime: TimeVal, rounds: seq<RoundInput>,
                      b: nat, e: nat, id: NodeId, msg: seq<Byte>, result: int)
    requires curTime.Normalised()
    requires var log := LogOf(kind, host, now, curTime, rounds);
             InStay(log, b, e, id, msg) && e + 1 < |log| && Ends(log[e], id, result)
    ensures var log := LogOf(kind, host, now, curTime, rounds);
            && (log[e + 1].Multicast? <==> result == 0)
            && (log[e + 1].Multicast? ==> log[e + 1].id == id && FaithfulCopy(host, msg, log[e + 1].frame))
            && (log[e + 1].Multicast? && kind.Powerline? ==> forall j :: b < j <= e ==> Air(log, j) == [id])
  {
    hide LogOf, Lawful, FaithfulCopy;
    MulticastExactlyAfterOk(kind, host, LogOf(kind, host, now, curTime, rounds), b, e, id, msg, result);
  }

  /** In any run from the start every CCA confirm says clear exactly when nobody is in the air, the confirms answer the
      requests in order, and when a sound run stands between two rounds no request is unanswered: each has been answered
      in the round that brought it. */
  lemma RunAnswers(kind: Kind, host: Endian, now: nat, curTime: TimeVal, rounds: seq<RoundInput>, i: nat)
    requires curTime.Normalised() && i < |LogOf(kind, host, now, curTime, rounds)|
    ensures var log := LogOf(kind, host, now, curTime, rounds);
            && (log[i].CcaTold? ==> (log[i].clear <==> Air(log, i) == []))
            && ToldIds(log) <= AskedIds(log)
    ensures var m := Run(Initial(kind, host, now, curTime), rounds);
            m.fault.Sound? && !m.state.STOPPED? ==> ToldIds(m.log) == AskedIds(m.log)
  {
    var m := Run(Initial(kind, host, now, curTime), rounds);
    assert LogOf(kind, host, now, curTime, rounds) == m.log;
    RunFromStart(kind, host, now, curTime, rounds);
    hide LogOf, Lawful, Run, AskedIds, ToldIds, Conforming;
    AnsweredInOrder(kind, host, m.log);
    if m.log[i].CcaTold? {
      ClearExactlyWhenSilent(kind, host, m.log, i);
    }
    if m.fault.Sound? && !m.state.STOPPED? {
      NobodyWaiting(m);
    }
  }

  lemma NobodyWaiting(m: Medium)
    requires Between(m) && m.fault.Sound? && !m.state.STOPPED?
    ensures Observe(m.log).waiting == []
  {
    hide Observe, Lawful, Agreement;
  }

  /** In any run from the start a node that times out joined at least 120 s before, and has not confirmed since. */
  lemma RunTimeouts(kind: Kind, host: Endian, now: nat, curTime: TimeVal, rounds: seq<RoundInput>, i: nat, id: NodeId)
    returns (j: nat)
    requires curTime.Normalised()
    requires var log := LogOf(kind, host, now, curTime, rounds); i < |log| && log[i].TimedOut? && id in log[i].ids
    ensures var log := LogOf(kind, host, now, curTime, rounds);
            JoinedAt(log, j, i, id) && id in log[i].readings && log[i].readings[id] >= log[j].at + 120_000_000_000
  {
    hide LogOf, Lawful;
    j := NoTimeoutBeforeItsTime(kind, host, LogOf(kind, host, now, curTime, rounds), i, id);
  }

  /** The other half: in any run from the start a sweep reads the timer of every registering node, and spares none that
      joined 120 s or more before. */
  lemma RunSweeps(kind: Kind, host: Endian, now: nat, curTime: TimeVal, rounds: seq<RoundInput>, j: nat, i: nat, id: NodeId)
    requires curTime.Normalised()
    requires var log := LogOf(kind, host, now, curTime, rounds);
             i < |log| && log[i].TimedOut? && JoinedAt(log, j, i, id)
    ensures var log := LogOf(kind, host, now, curTime, rounds);
            && id in log[i].readings
            && (id in log[i].ids <==> log[i].readings[id] >= log[j].at + 120_000_000_000)
  {
    hide LogOf, Lawful;
    TimeoutExactly(kind, host, LogOf(kind, host, now, curTime, rounds), j, i, id);
  }

  /** Every sound round that leaves the medium idle ends with such a sweep, which reads the clock inside its window. */
  lemma IdleAfterSweep(m: Medium, r: RoundInput)
    requires Between(m) && Running(m) && Round(m, r).fault.Sound? && Round(m, r).state.IDLE?
    ensures var m' := Round(m, r);
            && m'.log != [] && m'.now >= r.regWindow.total
            && var a := m'.log[|m'.log| - 1];
               && a.TimedOut? && m'.regList !! a.ids && a.readings.Keys == m'.regList + a.ids
               && forall id :: id in a.readings ==>
                    a.readings[id] == m'.now - r.regWindow.total + r.regWindow.Offset(id)
  {
    hide Observe, Lawful, Inv, Between, Interval, ProcessCca, CollisionCheck, ProcessTx, Round, Finish, InLoop, Agreement,
         Settled, SweepRegs;
    var last: Medium;
    if m.state.IDLE? {
      IdleStages(m, r);
      var m1 := Interval(m, IDLE_POLL_MS, r.batch);
      last := if !m1.fault.Sound? || m1.state.STOPPING? then m1
              else ProcessCca(if m1.txList != [] then m1.(state := TX_802514_FRAME) else m1);
    } else {
      BusyStages(m, r);
      var m1 := Interval(m, BUSY_POLL_MS, r.batch);
      last := if !m1.fault.Sound? || m1.state.STOPPING? then m1
              else ProcessTx(CollisionCheck(ProcessCca(m1)), r.txWindow);
    }
    FinishFacts(last, r.regWindow);
    SweepRecord(last.(state := IDLE), r.regWindow);
  }

  lemma SweepRecord(m: Medium, w: Window)
    requires Agreement(m)
    ensures var m' := SweepRegs(m, w);
            && m'.log != [] && m'.now >= w.total
            && var a := m'.log[|m'.log| - 1];
               && a.TimedOut? && m'.regList !! a.ids && a.readings.Keys == m'.regList + a.ids
               && forall id :: id in a.readings ==> a.readings[id] == m'.now - w.total + w.Offset(id)
  {
    SweepRegsEffect(m, w);
    hide SweepRegs, Agreement;
  }
}
