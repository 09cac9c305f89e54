/** Whole runs: every script of polls keeps the invariant, obeys the observer's rules, and meets a fault of the model
    exactly when an event is out of order or a frame that announces more than it holds goes out. */
module Runs {
  import opened Bytes
  import opened Wire
  import opened Messages
  import opened Protocol
  import opened Observer
  import opened Invariant
  import Timespec

  /** What may arrive from a node, given what has been observed: it may confirm a registration once and first; ask for CCA
      once registered, also while it transmits; transmit when registered and not already transmitting; leave with nothing
      outstanding. */
  predicate Permitted(v: View, id: NodeId, input: Input)
  {
    match input
    case Dropped => true
    case Broken(_) => false
    case RegCon(_, _) => id in v.registering
    case DeregReq => id !in v.air && id !in v.waiting
    case CcaReq => id in v.registered
    case DataInd(_) => id in v.registered && id !in v.air
  }

  predicate Connected(v: View, id: NodeId)
  {
    id in v.registering || id in v.registered
  }

  predicate Legitimate(host: Endian, v: View, e: Event)
  {
    match e
    case Accept(_) => true
    case Recv(id, bytes) => Connected(v, id) ==> Permitted(v, id, ReadMsg(host, id, bytes))
    case Hangup(id) => Connected(v, id) ==> id !in v.air && id !in v.waiting
    case Unblock => true
    case Elapse(_) => true
  }

  predicate AllLegitimate(m: Medium, batch: seq<Event>)
    decreases |batch|
  {
    batch == [] || !Running(m) ||
    (Legitimate(m.host, Observe(m.log), batch[0]) && AllLegitimate(HandleEvent(m, batch[0]), batch[1..]))
  }

  predicate LegitimateRound(m: Medium, r: RoundInput)
  {
    Running(m) ==>
      var ms := if m.state.IDLE? then IDLE_POLL_MS else BUSY_POLL_MS;
      AllLegitimate(Emit(m.(curTime := Timespec.AddMs(m.curTime, ms)), Polled(ms)), r.batch)
  }

  /** Every event of the run is legitimate when it occurs. */
  predicate Conforming(m: Medium, rounds: seq<RoundInput>)
  {
    rounds == [] ||
    var n := |rounds| - 1;
    Conforming(m, rounds[..n]) && LegitimateRound(Run(m, rounds[..n]), rounds[n])
  }

  /** Between rounds the medium is idle with an empty txList, busy with a non-empty one, or stopped. */
  ghost predicate Between(m: Medium)
  {
    && Inv(m)
    && !m.state.STOPPING?
    && (m.state.IDLE? ==> m.txList == [])
    && (m.state.TX_802514_FRAME? ==> m.txList != [])
    && (Running(m) ==> m.ccaList == [])
  }

  lemma DataIndShape(host: Endian, id: NodeId, bytes: seq<Byte>)
    ensures ReadMsg(host, id, bytes).DataInd? ==>
            var msg := ReadMsg(host, id, bytes).msg;
            |msg| >= DATA_IND_SIZE && msg[16] == msg[17] == 0
  {
    hide Passes, FromBE, Loaded;
  }

  lemma HandleKeeps(m: Medium, id: NodeId, input: Input)
    requires Inv(m) && id in m.heap
    requires input.DataInd? ==> |input.msg| >= DATA_IND_SIZE && input.msg[16] == input.msg[17] == 0
    requires input.Broken? ==> !input.fault.Sound?
    ensures var m' := Handle(m, id, input);
            && Lawful'(m') && m'.state == m.state && m.txList <= m'.txList
            && (if Permitted(Observe(m.log), id, input) then Inv(m') else !m'.fault.Sound?)
  {
    match input {
      case Dropped =>
      case Broken(_) =>
      case RegCon(_, _) => ConfirmKeeps(m, id);
      case DeregReq =>
        DeregToldKeeps(m, id);
        ReleaseKeeps(Emit(m, DeregTold(id)), id);
      case CcaReq => AskCcaKeeps(m, id);
      case DataInd(msg) => TransmitKeeps(m, id, msg);
    }
    hide Observe, Lawful;
  }

  /** One event: fine exactly when it is legitimate, and the poll loop never takes a node off txList. */
  lemma EventKeeps(m: Medium, e: Event)
    requires Inv(m) && Running(m)
    ensures var m' := HandleEvent(m, e);
            && Lawful'(m') && m.txList <= m'.txList && (m'.state == m.state || m'.state.STOPPING?)
            && (if Legitimate(m.host, Observe(m.log), e) then Inv(m') else !m'.fault.Sound?)
  {
    hide Observe, Lawful, ReadMsg, Handle, Release, AcceptNode;
    match e {
      case Accept(id) => AcceptEffect(m, id);
      case Recv(id, bytes) =>
        if id in m.heap {
          DataIndShape(m.host, id, bytes);
          BrokenIsFault(m.host, id, bytes);
          HandleKeeps(m, id, ReadMsg(m.host, id, bytes));
        }
      case Hangup(id) =>
        if id in m.heap {
          ReleaseEffect(m, id);
        }
      case Unblock =>
      case Elapse(_) =>
    }
  }

  lemma BrokenIsFault(host: Endian, id: NodeId, bytes: seq<Byte>)
    ensures ReadMsg(host, id, bytes).Broken? ==> !ReadMsg(host, id, bytes).fault.Sound?
  {
    hide Passes, FromBE, Loaded;
  }

  lemma AcceptEffect(m: Medium, id: NodeId)
    requires Inv(m)
    ensures Inv(AcceptNode(m, id)) && AcceptNode(m, id).state == m.state && AcceptNode(m, id).txList == m.txList
  {
    AcceptKeeps(m, id);
  }

  lemma ReleaseEffect(m: Medium, id: NodeId)
    requires Inv(m) && id in m.heap
    ensures var m' := Release(m, id);
            && Lawful'(m') && m'.state == m.state && m'.txList == m.txList
            && (if id !in m.ccaList && id !in m.txList then Inv(m') else !m'.fault.Sound?)
  {
    ReleaseKeeps(m, id);
  }

  lemma {:induction false} EventsKeep(m: Medium, batch: seq<Event>)
    requires Inv(m) && (m.state.IDLE? || m.state.TX_802514_FRAME? || m.state.STOPPING?)
    ensures var m' := HandleEvents(m, batch);
            && Lawful'(m') && (m'.state == m.state || m'.state.STOPPING?)
            && (if AllLegitimate(m, batch) then Inv(m') && m.txList <= m'.txList else !m'.fault.Sound?)
    decreases |batch|
  {
    hide Observe, Lawful, HandleEvent, Legitimate, Agreement, Matches;
    if batch != [] && Running(m) {
      var m1 := HandleEvent(m, batch[0]);
      EventKeeps(m, batch[0]);
      if m1.fault.Sound? {
        EventsKeep(m1, batch[1..]);
      } else {
        assert HandleEvents(m1, batch[1..]) == m1;
      }
    }
  }

  lemma PollKeeps(m: Medium, ms: nat)
    requires Inv(m) && ms == (if m.txList == [] then IDLE_POLL_MS else BUSY_POLL_MS)
    ensures Inv(Emit(m.(curTime := Timespec.AddMs(m.curTime, ms)), Polled(ms)))
  {
    Append(m.kind, m.host, m.log, Polled(ms));
  }

  lemma IntervalKeeps(m: Medium, r: RoundInput)
    requires Between(m) && Running(m)
    ensures var m' := Interval(m, if m.state.IDLE? then IDLE_POLL_MS else BUSY_POLL_MS, r.batch);
            && Lawful'(m') && (m'.state == m.state || m'.state.STOPPING?)
            && (if LegitimateRound(m, r) then Inv(m') && m.txList <= m'.txList else !m'.fault.Sound?)
  {
    var ms := if m.state.IDLE? then IDLE_POLL_MS else BUSY_POLL_MS;
    PollKeeps(m, ms);
    EventsKeep(Emit(m.(curTime := Timespec.AddMs(m.curTime, ms)), Polled(ms)), r.batch);
  }

  lemma IdleRoundKeeps(m: Medium, r: RoundInput)
    requires Between(m) && m.state.IDLE?
    ensures Lawful'(IdleRound(m, r))
    ensures if LegitimateRound(m, r) then Between(IdleRound(m, r)) else !IdleRound(m, r).fault.Sound?
  {
    hide Observe, Lawful, Agreement, Matches, Interval, LegitimateRound, ProcessCca, SweepRegs;
    IntervalKeeps(m, r);
    var m1 := Interval(m, IDLE_POLL_MS, r.batch);
    if m1.fault.Sound? {
      StateIrrelevant(m1, if m1.txList != [] then TX_802514_FRAME else m1.state);
      StateIrrelevant(m1, STOPPED);
      if !m1.state.STOPPING? {
        var m2 := if m1.txList != [] then m1.(state := TX_802514_FRAME) else m1;
        CcaKeeps(m2);
        StateIrrelevant(ProcessCca(m2), IDLE);
        if ProcessCca(m2).txList == [] {
          SweepRegsKeeps(ProcessCca(m2).(state := IDLE), r.regWindow);
        }
      }
    }
  }

  lemma BusyRoundKeeps(m: Medium, r: RoundInput)
    requires Between(m) && m.state.TX_802514_FRAME?
    ensures var m' := BusyRound(m, r);
            && Lawful'(m')
            && (if LegitimateRound(m, r) then (if m'.fault.Sound? then Between(m') else Observe(m'.log).overran)
                else !m'.fault.Sound?)
  {
    hide Observe, Lawful, Agreement, Matches, Settled, Interval, LegitimateRound, ProcessCca, SweepRegs, CollisionCheck,
         ProcessTx;
    IntervalKeeps(m, r);
    var m1 := Interval(m, BUSY_POLL_MS, r.batch);
    if m1.fault.Sound? {
      StateIrrelevant(m1, STOPPED);
      if !m1.state.STOPPING? {
        CcaKeeps(m1);
        var m2 := ProcessCca(m1);
        CheckKeeps(m2);
        var m3 := CollisionCheck(m2);
        ProcessTxKeeps(m3, r.txWindow);
        var m4 := ProcessTx(m3, r.txWindow);
        if m4.fault.Sound? {
          StateIrrelevant(m4, IDLE);
          if m4.txList == [] {
            SweepRegsKeeps(m4.(state := IDLE), r.regWindow);
          }
        }
      }
    }
  }

  lemma StateIrrelevant(m: Medium, s: Control)
    requires Inv(m)
    ensures Inv(m.(state := s))
  {}

  /** In every run, whatever the clients, the accept thread and the clock do: the log obeys the observer's rules, the
      invariant holds between rounds, and one of the modelled faults occurs exactly if some event was illegitimate or a
      frame that announced more than it held went out. */
  lemma {:induction false} EveryRun(m: Medium, rounds: seq<RoundInput>)
    requires Between(m)
    ensures var m' := Run(m, rounds);
            && Lawful'(m')
            && (m'.fault.Sound? <==> Conforming(m, rounds) && !Observe(m'.log).overran)
            && (m'.fault.Sound? ==> Between(m'))
  {
    hide Observe, Lawful, Agreement, Matches, IdleRound, BusyRound, LegitimateRound;
    if rounds != [] {
      var n := |rounds| - 1;
      EveryRun(m, rounds[..n]);
      var m1 := Run(m, rounds[..n]);
      if m1.fault.Sound? {
        if m1.state.IDLE? {
          IdleRoundKeeps(m1, rounds[n]);
        } else if m1.state.TX_802514_FRAME? {
          BusyRoundKeeps(m1, rounds[n]);
        } else {
          assert LegitimateRound(m1, rounds[n]) by { NotRunning(m1, rounds[n]); }
        }
        NothingOverran(Run(m, rounds));
      }
    } else {
      NothingOverran(m);
    }
  }

  lemma NothingOverran(m: Medium)
    ensures Inv(m) ==> !Observe(m.log).overran
  {
    hide Observe, Lawful, Agreement;
  }

  lemma NotRunning(m: Medium, r: RoundInput)
    requires !Running(m)
    ensures LegitimateRound(m, r)
  {}

  lemma InitialIsSound(kind: Kind, host: Endian, now: nat, curTime: Timespec.TimeVal)
    ensures Between(Initial(kind, host, now, curTime)) && Initial(kind, host, now, curTime).log == []
    ensures Running(Initial(kind, host, now, curTime)) && Initial(kind, host, now, curTime).heap == map[]
  {}
}
