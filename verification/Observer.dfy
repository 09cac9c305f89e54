/** An observer's account of a run, independent of the medium's data structures: who is connected, who is in the air and
    who has met whom, all computed from the log; and the rules a log must obey. */
module Observer {
  import opened Bytes
  import opened Wire
  import opened Protocol

  datatype Owed = Nothing | Owes(id: NodeId)

  /** registering, registered: connected nodes before and after their registration confirm.
      waiting: CCA requests not yet answered, oldest first. air: packets in the air, oldest first.
      overlapped: nodes whose latest packet has at some instant shared the air with another one.
      seen: nodes whose latest packet has been on the air with another one at a collision check.
      met: nodes whose latest packet has met a collision check. owes: a packet acknowledged as sent but not yet multicast.
      due, expiry: the instants at which the latest packet of a node may end and a registration may time out.
      overran: a frame that announces more than it holds has gone out. */
  datatype View = View(
    registering: set<NodeId>, registered: set<NodeId>, waiting: seq<NodeId>, air: seq<NodeId>,
    sent: map<NodeId, seq<Byte>>, due: map<NodeId, nat>, expiry: map<NodeId, nat>,
    overlapped: set<NodeId>, seen: set<NodeId>, met: set<NodeId>, owes: Owed,
    oks: nat, collisions: nat, copies: nat, overran: bool)

  const Fresh := View({}, {}, [], [], map[], map[], map[], {}, {}, {}, Nothing, 0, 0, 0, false)

  function Elems(s: seq<NodeId>): set<NodeId>
  {
    set id | id in s
  }

  /** How long a packet is in the air at least, in nanoseconds: 4 ms, or nothing to speak of for an acknowledgement. */
  function Airtime(msg: seq<Byte>): nat
  {
    if IsAck(msg) then 1 else 4_000_000
  }

  /** The frame announces more payload than it has. */
  predicate Overrun(frame: seq<Byte>)
  {
    |frame| >= DATA_IND_SIZE && Overstates(frame)
  }

  function After(v: View, a: Act): View
  {
    match a
    case Joined(id, at) => v.(registering := v.registering + {id}, expiry := v.expiry[id := at + REGISTRATION_NS])
    case Confirmed(id) => v.(registering := v.registering - {id}, registered := v.registered + {id})
    case DeregTold(_) => v
    case Departed(id) => v.(registering := v.registering - {id}, registered := v.registered - {id})
    case TimedOut(ids, _) => v.(registering := v.registering - ids)
    case CcaAsked(id) => v.(waiting := v.waiting + [id])
    case CcaTold(_, _) => v.(waiting := if v.waiting == [] then [] else v.waiting[1..])
    case TxBegan(id, msg, at) =>
      v.(air := v.air + [id], sent := v.sent[id := msg], due := v.due[id := at + Airtime(msg)],
         overlapped := if v.air == [] then v.overlapped - {id} else v.overlapped + Elems(v.air) + {id},
         seen := v.seen - {id}, met := v.met - {id})
    case Checked =>
      v.(met := v.met + Elems(v.air), seen := if |v.air| > 1 then v.seen + Elems(v.air) else v.seen)
    case TxEnded(id, result, _) =>
      var ok := result == TX_DONE_OK;
      v.(air := Without(v.air, id), owes := if ok then Owes(id) else Nothing,
         oks := if ok then v.oks + 1 else v.oks, collisions := if ok then v.collisions else v.collisions + 1)
    case Multicast(_, frame) =>
      v.(owes := Nothing, copies := v.copies + 1, overran := v.overran || Overrun(frame))
    case Polled(_) => v
  }

  function Observe(log: seq<Act>): View
  {
    if log == [] then Fresh else After(Observe(log[..|log| - 1]), log[|log| - 1])
  }

  /** The frame differs from what the node sent only in the rssi byte and the checksum field, and passes the check. */
  predicate FaithfulCopy(host: Endian, msg: seq<Byte>, frame: seq<Byte>)
  {
    && |frame| == |msg| >= DATA_IND_SIZE
    && Passes(host, frame)
    && frame[RSSI_OFFSET] == 127
    && forall i :: 0 <= i < |msg| && i !in {16, 17, RSSI_OFFSET} ==> frame[i] == msg[i]
  }

  /** What may come next, given what has been seen. */
  predicate Allowed(kind: Kind, host: Endian, v: View, a: Act)
  {
    && (a.Multicast? <==> v.owes.Owes?)
    && match a
       case Joined(id, _) => id !in v.registering && id !in v.registered
       case Confirmed(id) => id in v.registering
       case DeregTold(id) => id in v.registering || id in v.registered
       case Departed(id) => (id in v.registering || id in v.registered) && id !in v.air && id !in v.waiting
       case TimedOut(ids, at) =>
         && ids <= v.registering == at.Keys
         && forall id :: id in at ==> id in v.expiry && (id in ids <==> v.expiry[id] <= at[id])
       case CcaAsked(id) => id in v.registered
       case CcaTold(id, clear) => v.waiting != [] && v.waiting[0] == id && (clear <==> v.air == [])
       case TxBegan(id, _, _) => id in v.registered && id !in v.air
       case Checked => true
       case TxEnded(id, result, at) =>
         && id in v.due && v.due[id] <= at && id in v.air && id in v.met && (id in v.seen <==> id in v.overlapped)
         && result == if kind.Powerline? && id in v.overlapped then TX_DONE_COLLIDED else TX_DONE_OK
       case Multicast(id, frame) => v.owes == Owes(id) && id in v.sent && FaithfulCopy(host, v.sent[id], frame)
       case Polled(ms) => ms == if v.air == [] then IDLE_POLL_MS else BUSY_POLL_MS
  }

  predicate Lawful(kind: Kind, host: Endian, log: seq<Act>)
  {
    log == [] ||
    var n := |log| - 1;
    Lawful(kind, host, log[..n]) && Allowed(kind, host, Observe(log[..n]), log[n])
  }

  lemma Append(kind: Kind, host: Endian, log: seq<Act>, a: Act)
    ensures Observe(log + [a]) == After(Observe(log), a)
    ensures Lawful(kind, host, log + [a]) <==> Lawful(kind, host, log) && Allowed(kind, host, Observe(log), a)
  {
    assert (log + [a])[..|log|] == log;
  }
}
