/** The busy period: with the clock advancing and no new transmissions, the inner loop of run() comes to an end. */
module Busy {
  import opened Bytes
  import opened Wire
  import opened Messages
  import opened Protocol
  import opened Observer
  import opened Invariant
  import opened Runs
  import opened Sweeps
  import opened Steps
  import Timespec

  /** A poll that brings no new transmission. */
  predicate Quiet(host: Endian, batch: seq<Event>)
  {
    forall i :: 0 <= i < |batch| && batch[i].Recv? ==> !ReadMsg(host, batch[i].id, batch[i].bytes).DataInd?
  }

  /** The ticks a packet still has to go, plus one. */
  function Remaining(t: Timer, now: nat): nat
  {
    if t.On? && t.deadline > now then t.deadline - now + 1 else 1
  }

  function Load(heap: map<NodeId, Node>, now: nat, ids: seq<NodeId>): nat
  {
    if ids == [] then 0
    else (if ids[0] in heap then Remaining(heap[ids[0]].txTimer, now) else 1) + Load(heap, now, ids[1..])
  }

  /** What a quiet poll, the answers and a check leave alone. */
  ghost predicate SameAir(m: Medium, m': Medium)
  {
    && m'.txList == m.txList && m'.now >= m.now && m'.host == m.host
    && forall id :: id in m.txList ==> id in m.heap && id in m'.heap && m'.heap[id].txTimer == m.heap[id].txTimer
  }

  lemma QuietInput(m: Medium, id: NodeId, input: Input)
    requires Inv(m) && id in m.heap && !input.DataInd? && Permitted(Observe(m.log), id, input)
    ensures SameAir(m, Handle(m, id, input))
  {
    hide Observe, Lawful;
    if input.DeregReq? {
      assert id !in m.txList;
    }
  }

  lemma QuietEvent(m: Medium, e: Event)
    requires Inv(m) && Legitimate(m.host, Observe(m.log), e)
    requires e.Recv? ==> !ReadMsg(m.host, e.id, e.bytes).DataInd?
    ensures SameAir(m, HandleEvent(m, e))
  {
    if e.Recv? {
      if e.id in m.heap {
        QuietInput(m, e.id, ReadMsg(m.host, e.id, e.bytes));
      }
    }
    hide Observe, Lawful, ReadMsg, Handle;
  }

  lemma {:induction false} QuietEvents(m: Medium, batch: seq<Event>)
    requires Inv(m) && AllLegitimate(m, batch) && Quiet(m.host, batch)
    requires m.state.IDLE? || m.state.TX_802514_FRAME? || m.state.STOPPING?
    ensures SameAir(m, HandleEvents(m, batch))
    decreases |batch|
  {
    hide Observe, Lawful, ReadMsg, HandleEvent, Legitimate, Agreement, Matches;
    if batch != [] && Running(m) {
      assert batch[0].Recv? ==> !ReadMsg(m.host, batch[0].id, batch[0].bytes).DataInd?;
      EventKeeps(m, batch[0]);
      QuietEvent(m, batch[0]);
      QuietEvents(HandleEvent(m, batch[0]), batch[1..]);
    } else {
      TxNodesLive(m);
    }
  }

  lemma TxNodesLive(m: Medium)
    requires Inv(m)
    ensures SameAir(m, m)
  {}

  lemma CheckSameAir(m: Medium)
    requires Inv(m)
    ensures SameAir(m, CollisionCheck(m))
  {
    CheckEffect(m);
    hide CollisionCheck, Observe, Lawful;
  }

  lemma {:induction false} LoadFrame(h: map<NodeId, Node>, h': map<NodeId, Node>, now: nat, ids: seq<NodeId>)
    requires forall id :: id in ids ==> id in h && id in h' && h'[id].txTimer == h[id].txTimer
    ensures Load(h', now, ids) == Load(h, now, ids)
  {
    if ids != [] {
      LoadFrame(h, h', now, ids[1..]);
    }
  }

  /** During the sweep every packet either leaves or, because its deadline lay beyond the reading, comes closer to it. */
  lemma {:induction false} SweepLightens(m: Medium, ids: seq<NodeId>, w: Window, before: nat, after: nat)
    requires before <= m.now && before < after && m.now <= after
    requires forall id :: id in ids ==> id in m.heap && m.heap[id].txTimer.On?
    ensures Load(m.heap, after, Keep(m, ids, w)) + |ids| <= Load(m.heap, before, ids)
    decreases |ids|
  {
    if ids != [] {
      SweepLightens(m, ids[1..], w, before, after);
      var keep := Keep(m, ids[1..], w);
      assert ([ids[0]] + keep)[1..] == keep;
      assert [] + keep == keep;
    }
  }

  predicate Busily(m: Medium)
  {
    m.fault.Sound? && m.state.TX_802514_FRAME?
  }

  /** One busy round without new transmissions, during which the clock advances, lowers the load by at least one for every
      node in the air. */
  lemma BusyRoundLightens(m: Medium, r: RoundInput)
    requires Between(m) && m.state.TX_802514_FRAME? && LegitimateRound(m, r) && Quiet(m.host, r.batch)
    requires m.now < BusyRound(m, r).now
    ensures var m' := BusyRound(m, r);
            Busily(m') ==> Load(m'.heap, m'.now, m'.txList) + |m.txList| <= Load(m.heap, m.now, m.txList)
  {
    hide Observe, Lawful, Agreement, Matches, Settled, Interval, ProcessCca, CollisionCheck, ProcessTx, SweepRegs,
         LegitimateRound, Quiet, Load, Keep;
    IntervalKeeps(m, r);
    QuietInterval(m, r);
    var m1 := Interval(m, BUSY_POLL_MS, r.batch);
    if !m1.state.STOPPING? {
      CcaKeeps(m1);
      var m2 := ProcessCca(m1);
      CheckKeeps(m2);
      CheckSameAir(m2);
      var m3 := CollisionCheck(m2);
      ProcessTxKeeps(m3, r.txWindow);
      SweepedState(m3, r);
      if ProcessTx(m3, r.txWindow).fault.Sound? && ProcessTx(m3, r.txWindow).txList != [] {
        BusySweep(m, m3, r.txWindow);
      }
    }
  }

  lemma QuietInterval(m: Medium, r: RoundInput)
    requires Between(m) && m.state.TX_802514_FRAME? && LegitimateRound(m, r) && Quiet(m.host, r.batch)
    ensures SameAir(m, Interval(m, BUSY_POLL_MS, r.batch))
  {
    PollKeeps(m, BUSY_POLL_MS);
    hide Observe, Lawful, HandleEvents, AllLegitimate, Agreement, Matches;
    QuietEvents(Emit(m.(curTime := Timespec.AddMs(m.curTime, BUSY_POLL_MS)), Polled(BUSY_POLL_MS)), r.batch);
  }

  /** Only a round that leaves the list non-empty stays busy, and it ends with processTxList. */
  lemma SweepedState(m3: Medium, r: RoundInput)
    requires Inv(m3) && Settled(m3) && m3.state.TX_802514_FRAME?
    ensures var m4 := ProcessTx(m3, r.txWindow);
            m4.fault.Sound? && m4.txList == [] ==> !EndBusy(m4, r.regWindow).state.TX_802514_FRAME?
  {
    hide ProcessTx, Observe, Lawful, Inv, Settled;
  }

  lemma BusySweep(m: Medium, m3: Medium, w: Window)
    requires Inv(m) && Inv(m3) && Settled(m3) && SameAir(m, m3) && m.now < m3.now + w.total
    requires ProcessTx(m3, w).fault.Sound?
    ensures var m4 := ProcessTx(m3, w);
            && m4.now == m3.now + w.total
            && Load(m4.heap, m4.now, m4.txList) + |m.txList| <= Load(m.heap, m.now, m.txList)
  {
    ProcessTxIsFilter(m3, w);
    SweepTimers(m3, w);
    SweepKeeps(m3, m3.txList, w);
    hide Observe, Lawful, Matches, Settled, TxSweep;
    var m4 := ProcessTx(m3, w);
    SweepLightens(m3, m3.txList, w, m.now, m4.now);
    LoadFrame(m.heap, m3.heap, m.now, m.txList);
    LoadFrame(m3.heap, m4.heap, m4.now, m4.txList);
  }

  /** Nodes that stay on the list keep their timers. */
  lemma SweepTimers(m: Medium, w: Window)
    requires Inv(m) && Settled(m) && ProcessTx(m, w).fault.Sound?
    ensures var m' := ProcessTx(m, w);
            forall id :: id in m'.txList ==> id in m.heap && id in m'.heap && m'.heap[id].txTimer == m.heap[id].txTimer
  {
    SweepKeepsTimers(m, m.txList, w);
  }

  lemma {:induction false} SweepKeepsTimers(m: Medium, ids: seq<NodeId>, w: Window)
    requires Inv(m) && Settled(m) && NoDup(ids) && forall id :: id in ids ==> id in m.txList
    requires TxSweep(m, ids, w).fault.Sound?
    ensures var m' := TxSweep(m, ids, w);
            forall id :: id in m'.txList ==>
              id in m.txList && id in m.heap && id in m'.heap && m'.heap[id].txTimer == m.heap[id].txTimer
    decreases |ids|
  {
    hide Observe, Lawful, Matches, Settled, TxVisit, Overreads;
    if ids != [] {
      VisitKeeps(m, ids[0], w);
      WithoutMembers(m, ids[0]);
      FaultsStay(TxVisit(m, ids[0], w), ids[1..], w);
      SweepKeepsTimers(TxVisit(m, ids[0], w), ids[1..], w);
      VisitSelf(m, ids[0], w);
    } else {
      TxNodesLive(m);
    }
  }

  lemma FaultsStay(m: Medium, ids: seq<NodeId>, w: Window)
    ensures !m.fault.Sound? ==> !TxSweep(m, ids, w).fault.Sound?
  {}

  lemma VisitSelf(m: Medium, id: NodeId, w: Window)
    requires Inv(m) && Settled(m) && id in m.txList
    ensures !Expires(m, id, w) ==> TxVisit(m, id, w) == m
    ensures Expires(m, id, w) <==> Expired(m.heap[id].txTimer, m.now + w.Offset(id))
  {}

  /** Every round of the run brings no transmission, and the clock advances while the medium is busy. */
  predicate QuietAndTicking(m: Medium, rounds: seq<RoundInput>)
  {
    forall k :: 0 <= k < |rounds| ==>
      Quiet(Run(m, rounds[..k]).host, rounds[k].batch) &&
      (Busily(Run(m, rounds[..k])) ==> Run(m, rounds[..k]).now < Run(m, rounds[..k + 1]).now)
  }

  predicate NoUnblock(rounds: seq<RoundInput>)
  {
    forall k, i :: 0 <= k < |rounds| && 0 <= i < |rounds[k].batch| ==> !rounds[k].batch[i].Unblock?
  }

  predicate BusyAt(m: Medium, rounds: seq<RoundInput>, k: nat)
  {
    k <= |rounds| && Run(m, rounds[..k]).state.TX_802514_FRAME?
  }

  /** A busy period without new transmissions ends: after as many rounds as the load at its start, or earlier, the medium
      is idle with an empty txList, or stopped; idle, if nothing tells it to stop. */
  lemma BusyPeriodEnds(m: Medium, rounds: seq<RoundInput>)
    requires Between(m) && Busily(m) && Run(m, rounds).fault.Sound? && QuietAndTicking(m, rounds)
    requires |rounds| >= Load(m.heap, m.now, m.txList)
    ensures exists k :: 0 <= k <= Load(m.heap, m.now, m.txList) &&
              var m' := Run(m, rounds[..k]);
              && (m'.state.STOPPED? || (m'.state.IDLE? && m'.txList == []))
              && (NoUnblock(rounds) ==> m'.state.IDLE?)
  {
    var bound := Load(m.heap, m.now, m.txList);
    hide QuietAndTicking, NoUnblock, Run, Between;
    if forall k :: 0 <= k <= bound ==> BusyAt(m, rounds, k) {
      assert BusyAt(m, rounds, bound);
      SomeLoad(m, rounds, bound);
      LoadFalls(m, rounds, bound);
      assert false;
    }
    var k :| 0 <= k <= bound && !BusyAt(m, rounds, k);
    SoundPrefix(m, rounds, k);
    AtRest(Run(m, rounds[..k]));
    if NoUnblock(rounds) {
      NeverStops(m, rounds, k);
    }
  }

  /** Every beginning of a sound run is sound and ends between rounds. */
  lemma SoundPrefix(m: Medium, rounds: seq<RoundInput>, k: nat)
    requires Between(m) && Run(m, rounds).fault.Sound? && k <= |rounds|
    ensures Run(m, rounds[..k]).fault.Sound? && Between(Run(m, rounds[..k]))
  {
    hide Between, Run;
    if !Run(m, rounds[..k]).fault.Sound? {
      assert k == |rounds| ==> rounds[..k] == rounds;
      RunOver(m, rounds, k);
    }
    EveryRun(m, rounds[..k]);
  }

  lemma AtRest(m: Medium)
    requires Between(m) && !m.state.TX_802514_FRAME?
    ensures m.state.STOPPED? || (m.state.IDLE? && m.txList == [])
  {
    hide Inv;
  }

  lemma SomeLoad(m: Medium, rounds: seq<RoundInput>, k: nat)
    requires Between(m) && Run(m, rounds).fault.Sound? && BusyAt(m, rounds, k)
    ensures var m' := Run(m, rounds[..k]); Load(m'.heap, m'.now, m'.txList) > 0
  {
    SoundPrefix(m, rounds, k);
    hide Run, Inv;
  }

  lemma {:induction false} LoadFalls(m: Medium, rounds: seq<RoundInput>, k: nat)
    requires Between(m) && Run(m, rounds).fault.Sound? && QuietAndTicking(m, rounds) && k <= |rounds|
    requires forall j :: 0 <= j <= k ==> BusyAt(m, rounds, j)
    ensures var m' := Run(m, rounds[..k]);
            Load(m'.heap, m'.now, m'.txList) + k <= Load(m.heap, m.now, m.txList)
  {
    hide Load, Between, QuietAndTicking, BusyAt;
    if k > 0 {
      hide Run;
      LoadFalls(m, rounds, k - 1);
      LoadFallsOnce(m, rounds, k - 1);
    } else {
      assert rounds[..0] == [];
    }
  }

  lemma LoadFallsOnce(m: Medium, rounds: seq<RoundInput>, k: nat)
    requires Between(m) && Run(m, rounds).fault.Sound? && QuietAndTicking(m, rounds) && k < |rounds|
    requires BusyAt(m, rounds, k) && BusyAt(m, rounds, k + 1)
    ensures var a, b := Run(m, rounds[..k]), Run(m, rounds[..k + 1]);
            Load(b.heap, b.now, b.txList) < Load(a.heap, a.now, a.txList)
  {
    SoundPrefix(m, rounds, k);
    SoundPrefix(m, rounds, k + 1);
    var a, b := Run(m, rounds[..k]), Run(m, rounds[..k + 1]);
    assert Quiet(a.host, rounds[k].batch) && a.now < b.now;
    hide QuietAndTicking, Load, Quiet, Run;
    LegitimatePrefix(m, rounds, k);
    RunNext(m, rounds, k);
    BusyAndNotEmpty(a);
    hide Between, LegitimateRound, BusyRound;
    BusyRoundLightens(a, rounds[k]);
  }

  lemma BusyAndNotEmpty(m: Medium)
    requires Between(m) && m.fault.Sound? && m.state.TX_802514_FRAME?
    ensures |m.txList| > 0 && Running(m) && forall r :: Round(m, r) == BusyRound(m, r)
  {
    hide Inv, BusyRound;
  }

  lemma LegitimatePrefix(m: Medium, rounds: seq<RoundInput>, k: nat)
    requires Between(m) && k < |rounds| && Run(m, rounds[..k + 1]).fault.Sound?
    ensures LegitimateRound(Run(m, rounds[..k]), rounds[k])
  {
    hide Between, Run, LegitimateRound;
    EveryRun(m, rounds[..k + 1]);
    assert rounds[..k + 1][..k] == rounds[..k];
  }

  // Only the unblocker stops the thread

  predicate Alive(m: Medium)
  {
    m.state.IDLE? || m.state.TX_802514_FRAME?
  }

  lemma {:induction false} NeverStops(m: Medium, rounds: seq<RoundInput>, k: nat)
    requires Alive(m) && NoUnblock(rounds) && k <= |rounds|
    ensures Alive(Run(m, rounds[..k]))
  {
    hide NoUnblock;
    if k > 0 {
      NeverStops(m, rounds, k - 1);
      RunNext(m, rounds, k - 1);
      hide Run, Alive;
      RoundGoesOn(Run(m, rounds[..k - 1]), rounds, k - 1);
    } else {
      RunStart(m, rounds);
    }
  }

  lemma RoundGoesOn(m: Medium, rounds: seq<RoundInput>, k: nat)
    requires Alive(m) && NoUnblock(rounds) && k < |rounds|
    ensures Alive(Round(m, rounds[k]))
  {
    hide HandleEvents, ProcessCca, CollisionCheck, TxSweep, SweepRegs, NoUnblock;
    var r := rounds[k];
    forall m1: Medium, ms ensures Interval(m1, ms, r.batch).state == m1.state {
      EventsState(Emit(m1.(curTime := Timespec.AddMs(m1.curTime, ms)), Polled(ms)), rounds, k, 0);
      assert r.batch[0..] == r.batch;
    }
    forall m1 ensures ProcessCca(m1).state == m1.state { CcaState(m1); }
    forall m1 ensures CollisionCheck(m1).state == m1.state { CheckState(m1); }
    forall m1: Medium, ids ensures TxSweep(m1, ids, r.txWindow).state == m1.state { SweepState(m1, ids, r.txWindow); }
    forall m1 ensures SweepRegs(m1, r.regWindow).state == m1.state { RegsState(m1, r.regWindow); }
  }

  lemma {:induction false} EventsState(m: Medium, rounds: seq<RoundInput>, k: nat, i: nat)
    requires NoUnblock(rounds) && k < |rounds| && i <= |rounds[k].batch|
    ensures HandleEvents(m, rounds[k].batch[i..]).state == m.state
    decreases |rounds[k].batch| - i
  {
    hide HandleEvent;
    var batch := rounds[k].batch;
    if i < |batch| && Running(m) {
      EventState(m, batch[i]);
      EventsState(HandleEvent(m, batch[i]), rounds, k, i + 1);
      assert batch[i..][1..] == batch[i + 1..];
    }
  }

  lemma {:induction false} CcaState(m: Medium)
    ensures ProcessCca(m).state == m.state
    decreases |m.ccaList|
  {
    if m.ccaList != [] {
      CcaState(Emit(m.(ccaList := m.ccaList[1..]), CcaTold(m.ccaList[0], m.state.IDLE?)));
    }
  }

  lemma CheckState(m: Medium)
    ensures CollisionCheck(m).state == m.state
  {}

  lemma {:induction false} SweepState(m: Medium, ids: seq<NodeId>, w: Window)
    ensures TxSweep(m, ids, w).state == m.state
    decreases |ids|
  {
    if ids != [] {
      SweepState(TxVisit(m, ids[0], w), ids[1..], w);
    }
  }

  lemma RegsState(m: Medium, w: Window)
    ensures SweepRegs(m, w).state == m.state
  {}
}
