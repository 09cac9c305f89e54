/** What no step changes, and the poll clock: curTime is the start time plus the waits of all polls so far. */
module Clock {
  import opened Bytes
  import opened Wire
  import opened Messages
  import opened Timespec
  import opened Protocol
  import opened Observer
  import opened Invariant
  import opened Runs

  /** The total of the poll timeouts recorded in a log, in milliseconds. */
  function PolledMs(log: seq<Act>): nat
  {
    if log == [] then 0
    else PolledMs(log[..|log| - 1]) + if log[|log| - 1].Polled? then log[|log| - 1].ms else 0
  }

  lemma PolledAppend(log: seq<Act>, a: Act)
    ensures PolledMs(log + [a]) == PolledMs(log) + if a.Polled? then a.ms else 0
  {
    assert (log + [a])[..|log|] == log;
  }

  /** Acts of the medium's own: answers, checks, ends of packets, timeouts. The others are polls and what polls bring. */
  predicate Own(a: Act)
  {
    a.CcaTold? || a.Checked? || a.TxEnded? || a.Multicast? || a.TimedOut?
  }

  /** The log grows, without another poll and, after the events of a poll, by acts of the medium's own. */
  ghost predicate Grows(log: seq<Act>, log': seq<Act>, own: bool)
  {
    && |log| <= |log'| && log'[..|log|] == log
    && forall i :: |log| <= i < |log'| ==> !log'[i].Polled? && (own ==> Own(log'[i]))
  }

  lemma {:induction false} GrowsUnpolled(log: seq<Act>, log': seq<Act>, own: bool)
    requires Grows(log, log', own)
    ensures PolledMs(log') == PolledMs(log)
    decreases |log'|
  {
    if |log| == |log'| {
      assert log' == log;
    } else {
      var n := |log'| - 1;
      assert log'[..n][..|log|] == log;
      GrowsUnpolled(log, log'[..n], own);
    }
  }

  /** Steps other than a poll leave the configuration and the poll clock alone. */
  ghost predicate Aside(m: Medium, m': Medium, own: bool)
  {
    m'.kind == m.kind && m'.host == m.host && m'.curTime == m.curTime && Grows(m.log, m'.log, own)
  }

  lemma AsideThen(m: Medium, m1: Medium, m2: Medium, own: bool)
    requires Aside(m, m1, own) && Aside(m1, m2, own)
    ensures Aside(m, m2, own)
  {
    assert m2.log[..|m1.log|][..|m.log|] == m2.log[..|m.log|];
    forall i | |m.log| <= i < |m2.log|
      ensures !m2.log[i].Polled? && (own ==> Own(m2.log[i]))
    {
      assert i < |m1.log| ==> m2.log[i] == m2.log[..|m1.log|][i] == m1.log[i];
    }
  }

  lemma HandleAside(m: Medium, id: NodeId, input: Input)
    requires id in m.heap
    ensures Aside(m, Handle(m, id, input), false)
  {}

  lemma EventAside(m: Medium, e: Event)
    ensures Aside(m, HandleEvent(m, e), false)
  {
    hide Handle, ReadMsg;
    if e.Recv? && e.id in m.heap {
      HandleAside(m, e.id, ReadMsg(m.host, e.id, e.bytes));
    }
  }

  lemma {:induction false} EventsAside(m: Medium, batch: seq<Event>)
    ensures Aside(m, HandleEvents(m, batch), false)
    decreases |batch|
  {
    hide HandleEvent;
    if batch != [] && Running(m) {
      EventAside(m, batch[0]);
      EventsAside(HandleEvent(m, batch[0]), batch[1..]);
      hide Aside;
      AsideThen(m, HandleEvent(m, batch[0]), HandleEvents(m, batch), false);
    }
  }

  lemma {:induction false} CcaAside(m: Medium)
    ensures Aside(m, ProcessCca(m), true)
    decreases |m.ccaList|
  {
    if m.ccaList != [] && m.ccaList[0] in m.heap {
      var m1 := Emit(m.(ccaList := m.ccaList[1..]), CcaTold(m.ccaList[0], m.state.IDLE?));
      CcaAside(m1);
      assert Aside(m, m1, true);
      hide Aside;
      AsideThen(m, m1, ProcessCca(m), true);
    }
  }

  lemma CheckAside(m: Medium)
    ensures Aside(m, CollisionCheck(m), true)
  {}

  lemma CompleteAside(m: Medium, id: NodeId, pkt: Packet, at: nat)
    requires id in m.heap
    ensures Aside(m, Complete(m, id, pkt, at), true)
  {
    hide Outgoing, Without, Overstates;
  }

  lemma {:induction false} SweepAside(m: Medium, ids: seq<NodeId>, w: Window)
    ensures Aside(m, TxSweep(m, ids, w), true)
    decreases |ids|
  {
    hide Complete;
    if ids != [] && m.fault.Sound? {
      var id := ids[0];
      if id in m.heap && m.heap[id].txPkt.InFlight? {
        CompleteAside(m, id, m.heap[id].txPkt.pkt, m.now + w.Offset(id));
      }
      var m1 := TxVisit(m, id, w);
      assert Aside(m, m1, true);
      SweepAside(m1, ids[1..], w);
      hide Aside;
      AsideThen(m, m1, TxSweep(m, ids, w), true);
    }
  }

  lemma EndBusyAside(m: Medium, w: Window)
    ensures Aside(m, EndBusy(m, w), true)
  {
    hide Readings;
  }

  /** curTime advances with the recorded waits. */
  ghost predicate Ticked(m: Medium, m': Medium)
  {
    && m'.kind == m.kind && m'.host == m.host && m'.curTime.Normalised()
    && m'.curTime.Total() - 1_000_000 * PolledMs(m'.log) == m.curTime.Total() - 1_000_000 * PolledMs(m.log)
  }

  lemma IntervalTicks(m: Medium, ms: nat, batch: seq<Event>)
    requires m.curTime.Normalised() && ms <= 1000
    ensures Ticked(m, Interval(m, ms, batch))
  {
    PolledAppend(m.log, Polled(ms));
    AddMsExact(m.curTime, ms);
    hide PolledMs, HandleEvents, AddMs;
    var polled := Emit(m.(curTime := AddMs(m.curTime, ms)), Polled(ms));
    EventsAside(polled, batch);
    GrowsUnpolled(polled.log, HandleEvents(polled, batch).log, false);
  }

  /** Whatever follows the poll in a round is the medium's own. */
  lemma RestOfRound(m: Medium, r: RoundInput)
    requires Running(m)
    ensures Aside(Interval(m, if m.state.IDLE? then IDLE_POLL_MS else BUSY_POLL_MS, r.batch), Round(m, r), true)
  {
    hide Interval, ProcessCca, CollisionCheck, TxSweep, EndBusy;
    var m1 := Interval(m, if m.state.IDLE? then IDLE_POLL_MS else BUSY_POLL_MS, r.batch);
    var m2 := if m.state.IDLE? && m1.txList != [] then m1.(state := TX_802514_FRAME) else m1;
    var m3 := ProcessCca(m2);
    CcaAside(m2);
    CheckAside(m3);
    SweepAside(CollisionCheck(m3), CollisionCheck(m3).txList, r.txWindow);
    EndBusyAside(m3, r.regWindow);
    var m4 := ProcessTx(CollisionCheck(m3), r.txWindow);
    EndBusyAside(m4, r.regWindow);
    assert Aside(m1, m1.(state := STOPPED), true) && Aside(m1, m3, true) && Aside(m3, CollisionCheck(m3), true);
    assert Aside(CollisionCheck(m3), m4, true);
    hide Aside;
    AsideThen(m1, m3, CollisionCheck(m3), true);
    AsideThen(m1, CollisionCheck(m3), m4, true);
    AsideThen(m1, m3, EndBusy(m3, r.regWindow), true);
    AsideThen(m1, m4, EndBusy(m4, r.regWindow), true);
    assert Aside(m1, m1, true) by { Same(m1); }
  }

  lemma Same(m: Medium)
    ensures Aside(m, m, true)
  {}

  lemma RoundTicks(m: Medium, r: RoundInput)
    requires m.curTime.Normalised()
    ensures Ticked(m, Round(m, r))
  {
    hide PolledMs, Interval, Round;
    if Running(m) {
      var ms := if m.state.IDLE? then IDLE_POLL_MS else BUSY_POLL_MS;
      IntervalTicks(m, ms, r.batch);
      RestOfRound(m, r);
      GrowsUnpolled(Interval(m, ms, r.batch).log, Round(m, r).log, true);
    } else {
      assert Round(m, r) == m by { Halted(m, r); }
    }
  }

  lemma Halted(m: Medium, r: RoundInput)
    requires !Running(m)
    ensures Round(m, r) == m
  {}

  /** A round of a running medium polls once, first of all: for a second when idle, for a millisecond when busy. */
  lemma OnePollPerRound(m: Medium, r: RoundInput)
    requires Running(m)
    ensures var log := Round(m, r).log;
            && |log| > |m.log| && log[..|m.log|] == m.log
            && log[|m.log|] == Polled(if m.state.IDLE? then 1000 else 1)
            && forall i :: |m.log| < i < |log| ==> !log[i].Polled?
  {
    hide Round, HandleEvents;
    var ms := if m.state.IDLE? then IDLE_POLL_MS else BUSY_POLL_MS;
    var polled := Emit(m.(curTime := AddMs(m.curTime, ms)), Polled(ms));
    EventsAside(polled, r.batch);
    RestOfRound(m, r);
    hide AddMs;
    GrownTwice(m.log, polled.log, Interval(m, ms, r.batch).log, Round(m, r).log);
  }

  lemma GrownTwice(log: seq<Act>, log1: seq<Act>, log2: seq<Act>, log3: seq<Act>)
    requires |log1| == |log| + 1 && log1[..|log|] == log && Grows(log1, log2, false) && Grows(log2, log3, true)
    ensures |log3| > |log| && log3[..|log|] == log && log3[|log|] == log1[|log|]
    ensures forall i :: |log| < i < |log3| ==> !log3[i].Polled?
  {
    assert log3[..|log2|][..|log1|] == log3[..|log1|] == log1;
    assert log3[..|log1|][..|log|] == log3[..|log|];
    assert log3[|log|] == log3[..|log1|][|log|];
    forall i | |log| < i < |log3|
      ensures !log3[i].Polled?
    {
      assert i < |log2| ==> log3[i] == log3[..|log2|][i] == log2[i];
    }
  }

  lemma {:induction false} RunTicks(m: Medium, rounds: seq<RoundInput>)
    requires m.curTime.Normalised()
    ensures Ticked(m, Run(m, rounds))
  {
    hide PolledMs, Round;
    if rounds != [] {
      RunTicks(m, rounds[..|rounds| - 1]);
      RoundTicks(Run(m, rounds[..|rounds| - 1]), rounds[|rounds| - 1]);
    }
  }

  /** How many polls of the given timeout a log records. */
  function Polls(log: seq<Act>, ms: nat): nat
  {
    if log == [] then 0
    else Polls(log[..|log| - 1], ms) + if log[|log| - 1] == Polled(ms) then 1 else 0
  }

  lemma {:induction false} OnlyTwoWaits(kind: Kind, host: Endian, log: seq<Act>)
    requires Lawful(kind, host, log)
    ensures PolledMs(log) == 1000 * Polls(log, IDLE_POLL_MS) + Polls(log, BUSY_POLL_MS)
  {
    hide Observe, FaithfulCopy;
    if log != [] {
      OnlyTwoWaits(kind, host, log[..|log| - 1]);
    }
  }

  /** Every run from the start, sound or cut short: its log is lawful for the medium it was started as, it is sound exactly
      when the clients conform and no frame that announces more than it holds goes out, and its curTime is the start time
      plus one second per idle poll and one millisecond per busy poll. */
  lemma RunFromStart(kind: Kind, host: Endian, now: nat, curTime: TimeVal, rounds: seq<RoundInput>)
    requires curTime.Normalised()
    ensures var m := Run(Initial(kind, host, now, curTime), rounds);
            && m.kind == kind && m.host == host && Lawful(kind, host, m.log)
            && (m.fault.Sound? <==> Conforming(Initial(kind, host, now, curTime), rounds) && !Observe(m.log).overran)
            && (m.fault.Sound? ==> Between(m))
            && m.curTime.Total() ==
               curTime.Total() + 1_000_000_000 * Polls(m.log, IDLE_POLL_MS) + 1_000_000 * Polls(m.log, BUSY_POLL_MS)
  {
    hide Lawful, Observe, Polls, PolledMs, Run, Conforming, Between;
    InitialIsSound(kind, host, now, curTime);
    EveryRun(Initial(kind, host, now, curTime), rounds);
    RunTicks(Initial(kind, host, now, curTime), rounds);
    OnlyTwoWaits(kind, host, Run(Initial(kind, host, now, curTime), rounds).log);
    assert PolledMs([]) == 0 by { NoPolls(); }
  }

  lemma NoPolls()
    ensures PolledMs([]) == 0
  {}
}
