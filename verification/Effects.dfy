/** What single events do, spelled out field by field. */
module Effects {
  import opened Bytes
  import opened Wire
  import opened Messages
  import opened Protocol
  import opened Observer
  import opened Invariant
  import opened Runs
  import opened Steps
  import Timespec

  /** A connection of a node that is not there yet: one Registering node more, with 120 s to confirm, and nothing else. */
  lemma Joining(m: Medium, id: NodeId)
    requires Inv(m) && id !in m.heap
    ensures HandleEvent(m, Accept(id)) ==
            m.(heap := m.heap[id := Node(Registering, On(m.now + 120_000_000_000), Off, NoPacket)],
               regList := m.regList + {id}, log := m.log + [Joined(id, m.now)])
  {}

  lemma JoinedIsConnected(m: Medium, id: NodeId)
    requires Inv(m)
    ensures Connected(Observe(HandleEvent(m, Accept(id)).log), id)
  {
    if id in m.heap {
      LiveIsConnected(m, id);
    } else {
      Joining(m, id);
      Append(m.kind, m.host, m.log, Joined(id, m.now));
      hide Observe, Lawful, HandleEvent;
    }
  }

  lemma LiveIsConnected(m: Medium, id: NodeId)
    requires Inv(m) && id in m.heap
    ensures Connected(Observe(m.log), id) && HandleEvent(m, Accept(id)) == m
  {
    hide Observe, Lawful;
  }

  /** The medium at the i-th event of the poll of round k. */
  function AtEvent(start: Medium, rounds: seq<RoundInput>, k: nat, i: nat): Medium
    requires k < |rounds| && i <= |rounds[k].batch|
  {
    var m := Run(start, rounds[..k]);
    var ms := if m.state.IDLE? then IDLE_POLL_MS else BUSY_POLL_MS;
    HandleEvents(Emit(m.(curTime := Timespec.AddMs(m.curTime, ms)), Polled(ms)), rounds[k].batch[..i])
  }

  /** Wherever in a run a connection is handled, the node is connected from then on, with every node before it. */
  lemma RunAccepts(start: Medium, rounds: seq<RoundInput>, k: nat, i: nat, id: NodeId)
    requires Between(start) && k < |rounds| && Running(Run(start, rounds[..k]))
    requires i < |rounds[k].batch| && rounds[k].batch[i] == Accept(id) && Running(AtEvent(start, rounds, k, i))
    ensures var before, after := AtEvent(start, rounds, k, i), AtEvent(start, rounds, k, i + 1);
            && Connected(Observe(after.log), id) && after.heap.Keys == before.heap.Keys + {id}
            && forall x :: x in before.heap ==> after.heap[x] == before.heap[x]
  {
    hide AtEvent, Run, Observe, Lawful, Between, HandleEvent, Inv, Connected;
    NextEvent(start, rounds, k, i);
    var before := AtEvent(start, rounds, k, i);
    JoinedIsConnected(before, id);
    AcceptFrame(before, id);
  }

  lemma AcceptFrame(m: Medium, id: NodeId)
    requires Inv(m)
    ensures var m' := HandleEvent(m, Accept(id));
            m'.heap.Keys == m.heap.Keys + {id} && forall x :: x in m.heap ==> m'.heap[x] == m.heap[x]
  {
    if id in m.heap {
      LiveIsConnected(m, id);
    } else {
      Joining(m, id);
    }
    hide Inv, HandleEvent;
  }

  /** While the thread runs the invariant holds at every event, and the next medium is this one after the event. */
  lemma NextEvent(start: Medium, rounds: seq<RoundInput>, k: nat, i: nat)
    requires Between(start) && k < |rounds| && Running(Run(start, rounds[..k]))
    requires i < |rounds[k].batch| && Running(AtEvent(start, rounds, k, i))
    ensures Inv(AtEvent(start, rounds, k, i))
    ensures AtEvent(start, rounds, k, i + 1) == HandleEvent(AtEvent(start, rounds, k, i), rounds[k].batch[i])
  {
    hide Run, Observe, Lawful, HandleEvent, HandleEvents, AllLegitimate, Inv;
    var m, batch := Run(start, rounds[..k]), rounds[k].batch;
    var ms := if m.state.IDLE? then IDLE_POLL_MS else BUSY_POLL_MS;
    var polled := Emit(m.(curTime := Timespec.AddMs(m.curTime, ms)), Polled(ms));
    EveryRun(start, rounds[..k]);
    PollKeeps(m, ms);
    EventsKeep(polled, batch[..i]);
    OneMore(polled, batch, i);
  }

  /** Events are handled one after the other. */
  lemma {:induction false} OneMore(m: Medium, batch: seq<Event>, i: nat)
    requires i < |batch| && Running(HandleEvents(m, batch[..i]))
    ensures Running(m) && HandleEvents(m, batch[..i + 1]) == HandleEvent(HandleEvents(m, batch[..i]), batch[i])
    decreases i
  {
    hide HandleEvent;
    if i == 0 {
      assert batch[..1] == [batch[0]] && batch[..1][1..] == [];
    } else if Running(m) {
      var rest := batch[1..];
      assert batch[..i][1..] == rest[..i - 1] && batch[..i + 1][1..] == rest[..i];
      OneMore(HandleEvent(m, batch[0]), rest, i - 1);
    }
  }

  /** A throw, a failed assert or the unblocker ends the poll: the events after it are not handled. */
  lemma {:induction false} NothingAfterHalt(m: Medium, batch: seq<Event>, i: nat)
    requires i <= |batch| && !Running(HandleEvents(m, batch[..i]))
    ensures HandleEvents(m, batch) == HandleEvents(m, batch[..i])
    decreases i
  {
    hide HandleEvent;
    if i > 0 && Running(m) {
      assert batch[..i][1..] == batch[1..][..i - 1];
      NothingAfterHalt(HandleEvent(m, batch[0]), batch[1..], i - 1);
    }
  }

  /** The unblocker leaves everything but the state alone. */
  lemma {:induction false} NothingAfterUnblock(m: Medium, batch: seq<Event>, i: nat)
    requires i < |batch| && batch[i].Unblock? && Running(HandleEvents(m, batch[..i]))
    ensures HandleEvents(m, batch) == HandleEvents(m, batch[..i]).(state := STOPPING)
    decreases i
  {
    hide HandleEvent;
    if i == 0 {
      assert HandleEvent(m, batch[0]) == m.(state := STOPPING) by { Unblocked(m, batch[0]); }
    } else if Running(m) {
      assert batch[..i][1..] == batch[1..][..i - 1];
      NothingAfterUnblock(HandleEvent(m, batch[0]), batch[1..], i - 1);
    }
  }

  lemma Unblocked(m: Medium, e: Event)
    requires e.Unblock?
    ensures HandleEvent(m, e) == m.(state := STOPPING)
  {}

  /** And it ends the thread: no answer, no check, no Tx Done and no sweep comes after it. */
  lemma UnblockStops(m: Medium, r: RoundInput, i: nat)
    requires Running(m) && i < |r.batch| && r.batch[i].Unblock?
    requires var ms := if m.state.IDLE? then IDLE_POLL_MS else BUSY_POLL_MS;
             Running(Interval(m, ms, r.batch[..i]))
    ensures var ms := if m.state.IDLE? then IDLE_POLL_MS else BUSY_POLL_MS;
            Round(m, r) == Interval(m, ms, r.batch[..i]).(state := STOPPED)
  {
    var ms := if m.state.IDLE? then IDLE_POLL_MS else BUSY_POLL_MS;
    NothingAfterUnblock(Emit(m.(curTime := Timespec.AddMs(m.curTime, ms)), Polled(ms)), r.batch, i);
    hide HandleEvents, ProcessCca, CollisionCheck, ProcessTx, EndBusy;
  }

  /** No event but the passing of time changes what the clock shows. */
  lemma TimePasses(m: Medium, e: Event)
    ensures HandleEvent(m, e).now == m.now + if e.Elapse? then e.ns else 0
  {
    hide ReadMsg;
  }
}
