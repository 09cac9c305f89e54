/** Clients that behave as they see it conform as the simulator sees it: the channels' contents account for the difference
    between the two views. */
module Conformance {
  import opened Bytes
  import opened Wire
  import opened Messages
  import opened Protocol
  import opened Observer
  import opened Invariant
  import opened Runs
  import opened Traces
  import opened Clock
  import opened Steps
  import opened Clients
  import opened Guarantees
  import N = NodeSimulator
  import F = Frames
  import Timespec

  // One connection, as the log has it

  /** CCA requests, and data indications, read on id's present connection. */
  function Asked(log: seq<Act>, id: NodeId): nat
  {
    if log == [] then 0
    else
      var a := log[|log| - 1];
      if Joins(a, id) then 0 else Asked(log[..|log| - 1], id) + if a == CcaAsked(id) then 1 else 0
  }

  function Began(log: seq<Act>, id: NodeId): nat
  {
    if log == [] then 0
    else
      var a := log[|log| - 1];
      if Joins(a, id) then 0 else Began(log[..|log| - 1], id) + if a.TxBegan? && a.id == id then 1 else 0
  }

  lemma AppendOne(log: seq<Act>, a: Act, id: NodeId)
    ensures Inbox(log + [a], id) ==
            if Joins(a, id) then [a] else Inbox(log, id) + if Reaches(a, id) then [a] else []
    ensures Asked(log + [a], id) == if Joins(a, id) then 0 else Asked(log, id) + if a == CcaAsked(id) then 1 else 0
    ensures Began(log + [a], id) ==
            if Joins(a, id) then 0 else Began(log, id) + if a.TxBegan? && a.id == id then 1 else 0
  {
    assert (log + [a])[..|log|] == log;
  }

  lemma CountOne(s: seq<Act>, a: Act)
    ensures Confirms(s + [a]) == Confirms(s) + if a.CcaTold? then 1 else 0
    ensures Dones(s + [a]) == Dones(s) + if a.TxEnded? then 1 else 0
    ensures Confirms([]) == Dones([]) == 0
  {
    assert (s + [a])[..|s|] == s;
  }

  /** What has been read is answered or waits; what has begun has ended or is in the air. */
  ghost predicate Accounted(v: View, inbox: seq<Act>, asked: nat, began: nat, id: NodeId)
  {
    && asked == Confirms(inbox) + multiset(v.waiting)[id]
    && began == Dones(inbox) + (if id in v.air then 1 else 0)
    && (!Connected(v, id) ==> id !in v.air) && (id !in v.registered ==> id !in v.waiting)
    && (Connected(v, id) ==> inbox != [])
  }

  lemma {:induction false} Ledger(kind: Kind, host: Endian, log: seq<Act>, id: NodeId)
    requires Lawful(kind, host, log)
    ensures Accounted(Observe(log), Inbox(log, id), Asked(log, id), Began(log, id), id)
  {
    if log == [] {
      CountOne([], Checked);
    } else {
      hide Observe, Lawful, Allowed, After, Accounted, Inbox, Asked, Began, Joins, Reaches, NoDup;
      var n := |log| - 1;
      LawfulAt(kind, host, log, n);
      assert log[..n + 1] == log == log[..n] + [log[n]];
      Ledger(kind, host, log[..n], id);
      AirFacts(kind, host, log[..n]);
      AppendOne(log[..n], log[n], id);
      LedgerStep(kind, host, Observe(log[..n]), log[n], Inbox(log[..n], id), Asked(log[..n], id), Began(log[..n], id), id);
    }
  }

  lemma LedgerStep(kind: Kind, host: Endian, v: View, a: Act, inbox: seq<Act>, asked: nat, began: nat, id: NodeId)
    requires Allowed(kind, host, v, a) && Accounted(v, inbox, asked, began, id)
    requires NoDup(v.air) && v.registering !! v.registered && forall x :: x in v.air ==> x in v.registered
    ensures var inbox' := if Joins(a, id) then [a] else inbox + if Reaches(a, id) then [a] else [];
            Accounted(After(v, a), inbox',
                      if Joins(a, id) then 0 else asked + (if a == CcaAsked(id) then 1 else 0),
                      if Joins(a, id) then 0 else began + (if a.TxBegan? && a.id == id then 1 else 0), id)
  {
    hide FaithfulCopy, Overrun, Airtime, Confirms, Dones;
    CountOne(inbox, a);
    CountOne([], a);
    assert [] + [a] == [a] && inbox + [] == inbox;
    if a.TxEnded? {
      WithoutFacts(v.air, a.id);
    }
    if a.CcaTold? {
      assert v.waiting == [v.waiting[0]] + v.waiting[1..];
      assert multiset(v.waiting) == multiset([v.waiting[0]]) + multiset(v.waiting[1..]);
    }
  }

  // One client and its connection

  lemma SentOne(s: seq<Parcel>, p: Parcel)
    ensures Ccas(s + [p]) == Ccas(s) + if p.CcaRequest? then 1 else 0
    ensures Datas(s + [p]) == Datas(s) + if p.Data? then 1 else 0
  {
    assert (s + [p])[..|s|] == s;
  }

  lemma {:induction false} SentSome(s: seq<Parcel>, k: nat)
    requires k <= |s|
    ensures Ccas(s[..k]) <= Ccas(s) && Datas(s[..k]) <= Datas(s)
  {
    if k < |s| {
      var n := |s| - 1;
      SentSome(s[..n], k);
      assert s[..n][..k] == s[..k];
    } else {
      assert s[..k] == s;
    }
  }

  lemma {:induction false} HeardSome(s: seq<Act>, k: nat)
    requires k <= |s|
    ensures Confirms(s[..k]) <= Confirms(s) && Dones(s[..k]) <= Dones(s)
  {
    if k < |s| {
      var n := |s| - 1;
      HeardSome(s[..n], k);
      assert s[..n][..k] == s[..k];
    } else {
      assert s[..k] == s;
    }
  }

  /** The k-th parcel is in its place: the confirm first, requests after it, and nothing after leaving. */
  predicate InPlace(e: Endian, sent: seq<Parcel>, k: nat)
    requires k < |sent|
  {
    match sent[k]
    case RegConfirm(os, osVersion) => k == 0 && |os| == |osVersion| == 32
    case CcaRequest => k > 0
    case Data(source, psdu, _, _, _, _) => k > 0 && source < TWO64 && N.LengthReadable(e, DATA_IND_SIZE + |psdu|)
    case _ => k == |sent| - 1
  }

  predicate Left(sent: seq<Parcel>)
  {
    sent != [] && sent[|sent| - 1].Leaving()
  }

  /** The client's books, its parcels under way included, against those of the simulator. */
  ghost predicate Matched(c: Client, v: View, inbox: seq<Act>, asked: nat, began: nat, id: NodeId)
  {
    && id < TWO64 && c.read <= |c.sent| && c.heard <= |inbox|
    && (id in v.registering <==> c.read == 0)
    && asked == Ccas(c.sent[..c.read]) && began == Datas(c.sent[..c.read])
    && Datas(c.sent) <= Dones(inbox) + 1
    && (Left(c.sent) ==> Ccas(c.sent) == Confirms(inbox) && Datas(c.sent) == Dones(inbox))
    && (c.heard == 0 ==> c.sent == [] || c.sent == [Close])
  }

  ghost predicate Ordered(e: Endian, sent: seq<Parcel>)
  {
    forall k :: 0 <= k < |sent| ==> InPlace(e, sent, k)
  }

  ghost predicate Tied(host: Endian, log: seq<Act>, c: Client, id: NodeId)
  {
    Ordered(host, c.sent) && Matched(c, Observe(log), Inbox(log, id), Asked(log, id), Began(log, id), id)
  }

  lemma SendKeepsOrder(e: Endian, sent: seq<Parcel>, heard: seq<Act>, p: Parcel)
    requires Ordered(e, sent) && MaySend(e, sent, heard, p)
    ensures Ordered(e, sent + [p])
  {
    hide N.LengthReadable;
    forall k | 0 <= k < |sent + [p]|
      ensures InPlace(e, sent + [p], k)
    {
      assert k < |sent| ==> InPlace(e, sent, k) && (sent + [p])[k] == sent[k];
    }
  }

  lemma SendKeeps(e: Endian, c: Client, v: View, inbox: seq<Act>, asked: nat, began: nat, id: NodeId, p: Parcel)
    requires Matched(c, v, inbox, asked, began, id) && Accounted(v, inbox, asked, began, id)
    requires MaySend(e, c.sent, inbox[..c.heard], p)
    ensures Matched(c.(sent := c.sent + [p]), v, inbox, asked, began, id)
  {
    SentOne(c.sent, p);
    SentSome(c.sent, c.read);
    HeardSome(inbox, c.heard);
    assert (c.sent + [p])[..c.read] == c.sent[..c.read];
    hide Ccas, Datas, Confirms, Dones, N.LengthReadable;
  }

  /** Acts by which the simulator takes something of id's in; all others are neutral to its books. */
  predicate TakesIn(a: Act, id: NodeId)
  {
    (a.Joined? || a.Confirmed? || a.CcaAsked? || a.TxBegan?) && a.id == id
  }

  lemma NeutralStep(kind: Kind, host: Endian, v: View, a: Act, c: Client, inbox: seq<Act>, asked: nat, began: nat,
                    id: NodeId)
    requires Allowed(kind, host, v, a) && !TakesIn(a, id) && Connected(After(v, a), id)
    requires Matched(c, v, inbox, asked, began, id) && v.registering !! v.registered
    requires var inbox' := inbox + if Reaches(a, id) then [a] else [];
             Accounted(After(v, a), inbox', asked, began, id)
    ensures Connected(v, id) && Matched(c, After(v, a), inbox + (if Reaches(a, id) then [a] else []), asked, began, id)
  {
    CountOne(inbox, a);
    SentSome(c.sent, c.read);
    assert inbox + [] == inbox;
    hide FaithfulCopy, Overrun, Airtime, Ccas, Datas, Confirms, Dones, Without;
  }

  lemma NeutralKeeps(kind: Kind, host: Endian, log: seq<Act>, a: Act, c: Client, id: NodeId)
    requires Lawful(kind, host, log + [a]) && !TakesIn(a, id) && Connected(Observe(log + [a]), id)
    requires Connected(Observe(log), id) ==> Tied(host, log, c, id)
    ensures Connected(Observe(log), id) && Tied(host, log + [a], c, id)
  {
    hide Observe, Lawful, Allowed, Accounted, Inbox, Asked, Began, Reaches, Ordered, Matched;
    Append(kind, host, log, a);
    Ledger(kind, host, log + [a], id);
    AirFacts(kind, host, log);
    AppendOne(log, a, id);
    StillConnected(Observe(log), a, id);
    hide Connected, After;
    NeutralStep(kind, host, Observe(log), a, c, Inbox(log, id), Asked(log, id), Began(log, id), id);
  }

  lemma StillConnected(v: View, a: Act, id: NodeId)
    requires !TakesIn(a, id) && Connected(After(v, a), id)
    ensures Connected(v, id)
  {}

  /** The simulator reads the next parcel, and this is what it means to the books. */
  lemma ReadStep(e: Endian, c: Client, v: View, v': View, inbox: seq<Act>, asked: nat, began: nat, id: NodeId)
    requires Ordered(e, c.sent) && c.read < |c.sent|
    requires Matched(c, v, inbox, asked, began, id) && Accounted(v, inbox, asked, began, id)
    requires Connected(v, id) && v.registering !! v.registered
    ensures var p := c.sent[c.read];
            && (p.RegConfirm? ==> id in v.registering)
            && (p.CcaRequest? ==> id in v.registered)
            && (p.Data? ==> id in v.registered && id !in v.air)
            && (p.Leaving() ==> id !in v.air && id !in v.waiting)
    ensures var p := c.sent[c.read];
            !p.Leaving() && id !in v'.registering ==>
              Matched(c.(read := c.read + 1), v', inbox,
                      asked + (if p.CcaRequest? then 1 else 0), began + (if p.Data? then 1 else 0), id)
  {
    var p := c.sent[c.read];
    assert InPlace(e, c.sent, c.read);
    SentOne(c.sent[..c.read], p);
    SentSome(c.sent, c.read);
    SentSome(c.sent, c.read + 1);
    assert c.sent[..c.read + 1] == c.sent[..c.read] + [p];
    hide Ccas, Datas, Confirms, Dones, N.LengthReadable, Ordered;
  }

  /** A closed client has nothing outstanding. */
  lemma CloseStep(c: Client, v: View, inbox: seq<Act>, asked: nat, began: nat, id: NodeId)
    requires Left(c.sent) && Matched(c, v, inbox, asked, began, id) && Accounted(v, inbox, asked, began, id)
    ensures id !in v.air && id !in v.waiting
  {
    SentSome(c.sent, c.read);
    hide Ccas, Datas, Confirms, Dones;
  }

  // The bytes

  /** The first message of a connection is the registration request, and all are the node's own. */
  lemma {:induction false} InboxShape(kind: Kind, host: Endian, log: seq<Act>, id: NodeId)
    requires Lawful(kind, host, log)
    ensures var inbox := Inbox(log, id);
            && (inbox != [] ==> Joins(inbox[0], id))
            && forall i :: 0 <= i < |inbox| ==> Reaches(inbox[i], id)
  {
    hide Observe, Lawful, Allowed, Accounted, After, Reaches, Joins, Inbox;
    if log == [] {
      assert Inbox(log, id) == [] by { EmptyInbox(id); }
    } else {
      var n := |log| - 1;
      var before, a := Inbox(log[..n], id), log[n];
      LawfulAt(kind, host, log, n);
      Ledger(kind, host, log[..n], id);
      InboxShape(kind, host, log[..n], id);
      OnlyToTheConnected(kind, host, Observe(log[..n]), a, id, before, Asked(log[..n], id), Began(log[..n], id));
      assert log == log[..n] + [a];
      AppendOne(log[..n], a, id);
    }
  }

  lemma EmptyInbox(id: NodeId)
    ensures Inbox([], id) == []
  {}

  lemma OnlyToTheConnected(kind: Kind, host: Endian, v: View, a: Act, id: NodeId, inbox: seq<Act>, asked: nat, began: nat)
    requires Allowed(kind, host, v, a) && Accounted(v, inbox, asked, began, id)
    ensures Reaches(a, id) ==> Joins(a, id) || inbox != []
    ensures Joins(a, id) ==> Reaches(a, id)
  {
    hide FaithfulCopy, Confirms, Dones;
  }

  /** Whatever the client has heard on its connection, it uses the id of the registration request. */
  lemma {:induction false} SameId(e: Endian, inbox: seq<Act>, id: NodeId, k: nat)
    requires id < TWO64 && 0 < k <= |inbox| && Joins(inbox[0], id)
    requires forall i :: 0 <= i < |inbox| ==> Reaches(inbox[i], id)
    ensures IdInUse(e, inbox[..k]) == id
    decreases k
  {
    hide ClientRead, Frame;
    if k > 1 {
      SameId(e, inbox, id, k - 1);
    }
    var heard := inbox[..k];
    assert heard[..k - 1] == inbox[..k - 1] && heard[k - 1] == inbox[k - 1];
    HearsOne(e, inbox[k - 1], id, IdInUse(e, inbox[..k - 1]));
    hide MessageOf;
  }

  lemma HearsOne(e: Endian, a: Act, id: NodeId, before: nat)
    requires id < TWO64 && Reaches(a, id)
    ensures var heard := ClientRead(e, before, MessageOf(e, a));
            heard.Heard? && heard.nodeId == if Joins(a, id) then id else before
  {
    hide ClientRead, Frame;
    match a {
      case Joined(_, _) => N.ClientUnderstands(e, MSG_TYPE_REG_REQ, id, [], before);
      case CcaTold(_, clear) => N.ClientUnderstands(e, MSG_TYPE_CCA_CON, id, [if clear then 1 else 0], before);
      case TxEnded(_, result, _) => N.ClientUnderstands(e, MSG_TYPE_TX_DONE_IND, id, [result % 256], before);
      case DeregTold(_) => N.ClientUnderstands(e, MSG_TYPE_DEREG_CON, id, [], before);
    }
  }

  /** What readMsg makes of a parcel, whatever follows it in the stream. */
  function InputOf(e: Endian, id: NodeId, p: Parcel): Input
  {
    match p
    case RegConfirm(os, osVersion) => RegCon(os, osVersion)
    case CcaRequest => CcaReq
    case Data(_, _, _, _, _, _) => DataInd(if |Encode(e, id, p)| >= HDR_SIZE then Blanked(Encode(e, id, p)) else [])
    case _ => DeregReq
  }

  lemma Delivered(e: Endian, id: NodeId, sent: seq<Parcel>, k: nat, bytes: seq<Byte>)
    requires id < TWO64 && k < |sent| && InPlace(e, sent, k) && !sent[k].Close? && Encode(e, id, sent[k]) <= bytes
    ensures ReadMsg(e, id, bytes) == InputOf(e, id, sent[k])
  {
    var p := sent[k];
    var rest := bytes[|Encode(e, id, p)|..];
    assert bytes == Encode(e, id, p) + rest;
    hide ReadMsg, Frame;
    match p {
      case RegConfirm(os, osVersion) => N.RegConRoundTrip(e, id, os, osVersion, rest);
      case CcaRequest => N.RegConRoundTrip(e, id, seq(32, i => 0), seq(32, i => 0), rest);
      case DeregRequest => N.RegConRoundTrip(e, id, seq(32, i => 0), seq(32, i => 0), rest);
      case Data(source, psdu, extra, repCode, txPower, ccaMode) =>
        var body := N.DataIndBody(source, |psdu| % 0x1_0000, extra, repCode, txPower, ccaMode, 0, psdu);
        N.DataIndRoundTrip(e, id, body, rest);
    }
  }

  /** A packet sent by a client announces exactly the payload it carries. */
  lemma DataHolds(e: Endian, id: NodeId, sent: seq<Parcel>, k: nat)
    requires id < TWO64 && k < |sent| && InPlace(e, sent, k) && sent[k].Data?
    ensures InputOf(e, id, sent[k]).DataInd? && !Overrun(InputOf(e, id, sent[k]).msg)
  {
    hide Frame, Overstates;
    var p := sent[k];
    F.OverrunExactly(e, id, p.source, |p.psdu| % 0x1_0000, p.extra, p.repCode, p.txPower, p.ccaMode, 0, p.psdu);
  }

  /** Without the client's care: 34 bytes that announce a 65535-byte payload are read as a data indication. */
  lemma OverstatedIsTaken(e: Endian, id: NodeId, source: nat, extra: Word, txPower: Byte)
    requires id < TWO64
    ensures var msg := Frame(e, MSG_TYPE_TX_DATA_IND, id, N.DataIndBody(source, 0xffff, extra, 0, txPower, 0, 0, []));
            |msg| == DATA_IND_SIZE && ReadMsg(e, id, msg) == DataInd(Blanked(msg)) && Overrun(Blanked(msg))
  {
    hide Frame, ReadMsg, Overstates;
    var body := N.DataIndBody(source, 0xffff, extra, 0, txPower, 0, 0, []);
    var msg := Frame(e, MSG_TYPE_TX_DATA_IND, id, body);
    N.DataIndRoundTrip(e, id, body, []);
    assert msg + [] == msg;
    F.OverrunExactly(e, id, source, 0xffff, extra, 0, txPower, 0, 0, []);
  }

  // All clients and the log

  ghost predicate Linked(host: Endian, log: seq<Act>, clients: map<NodeId, Client>)
  {
    && AllHold(log)
    && forall id :: Connected(Observe(log), id) ==> id in clients && Tied(host, log, clients[id], id)
  }

  /** One act, by or for id: the others are not touched. */
  lemma ActKeeps(kind: Kind, host: Endian, log: seq<Act>, a: Act, clients: map<NodeId, Client>,
                 clients': map<NodeId, Client>, id: NodeId)
    requires Lawful(kind, host, log + [a]) && Linked(host, log, clients)
    requires forall x :: x != id && x in clients ==> x in clients' && clients'[x] == clients[x]
    requires forall x :: x != id ==> !TakesIn(a, x)
    requires Connected(Observe(log + [a]), id) ==> id in clients' && Tied(host, log + [a], clients'[id], id)
    requires a.TxBegan? ==> !Overrun(a.msg)
    ensures Linked(host, log + [a], clients')
  {
    hide Observe, Lawful, Tied, Connected, Overrun, TakesIn;
    forall x | Connected(Observe(log + [a]), x)
      ensures x in clients' && Tied(host, log + [a], clients'[x], x)
    {
      if x != id {
        OtherKeeps(kind, host, log, a, clients, x);
      }
    }
  }

  lemma OtherKeeps(kind: Kind, host: Endian, log: seq<Act>, a: Act, clients: map<NodeId, Client>, x: NodeId)
    requires Lawful(kind, host, log + [a]) && Linked(host, log, clients) && !TakesIn(a, x)
    requires Connected(Observe(log + [a]), x)
    ensures x in clients && Tied(host, log + [a], clients[x], x)
  {
    hide Observe, Lawful, Tied, TakesIn;
    Append(kind, host, log, a);
    StillConnected(Observe(log), a, x);
    hide Connected, After, Allowed;
    NeutralKeeps(kind, host, log, a, clients[x], x);
  }

  /** Acts of the medium's own leave the clients alone. */
  lemma {:induction false} OwnActsKeep(kind: Kind, host: Endian, log: seq<Act>, log': seq<Act>, clients: map<NodeId, Client>)
    requires Lawful(kind, host, log') && Linked(host, log, clients) && Grows(log, log', true)
    ensures Linked(host, log', clients)
    decreases |log'|
  {
    hide Lawful, Observe, Linked, Allowed, After;
    if |log'| == |log| {
      assert log' == log;
    } else {
      hide Grows;
      var n := |log'| - 1;
      LawfulAt(kind, host, log', n);
      GrewBefore(log, log');
      OwnActsKeep(kind, host, log, log'[..n], clients);
      assert log' == log'[..n] + [log'[n]];
      NeutralActKeeps(kind, host, log'[..n], log'[n], clients);
    }
  }

  lemma GrewBefore(log: seq<Act>, log': seq<Act>)
    requires Grows(log, log', true) && |log| < |log'|
    ensures Grows(log, log'[..|log'| - 1], true) && Own(log'[|log'| - 1])
  {
    assert log'[..|log'| - 1][..|log|] == log;
  }

  /** An act that takes nothing in. */
  lemma NeutralActKeeps(kind: Kind, host: Endian, log: seq<Act>, a: Act, clients: map<NodeId, Client>)
    requires Lawful(kind, host, log + [a]) && Linked(host, log, clients)
    requires !a.Joined? && !a.Confirmed? && !a.CcaAsked? && !a.TxBegan?
    ensures Linked(host, log + [a], clients)
  {
    hide Lawful, Observe, Linked;
    forall x ensures Connected(Observe(log + [a]), x) ==> x in clients && Tied(host, log + [a], clients[x], x) {
      if Connected(Observe(log + [a]), x) {
        OtherKeeps(kind, host, log, a, clients, x);
      }
    }
    hide Connected, Tied;
    ActKeeps(kind, host, log, a, clients, clients, 0);
  }

  // Events

  /** What is recorded of a permitted input. */
  function Taken(id: NodeId, input: Input, now: nat): seq<Act>
  {
    match input
    case RegCon(_, _) => [Confirmed(id)]
    case DeregReq => [DeregTold(id), Departed(id)]
    case CcaReq => [CcaAsked(id)]
    case DataInd(msg) => [TxBegan(id, msg, now)]
    case _ => []
  }

  lemma HandleLog(m: Medium, id: NodeId, input: Input)
    requires Inv(m) && id in m.heap && Permitted(Observe(m.log), id, input)
    ensures Handle(m, id, input).log == m.log + Taken(id, input, m.now)
  {
    hide Observe, Lawful;
    ConfirmCases(m, id);
    ReleaseCases(Emit(m, DeregTold(id)), id);
    if input.DataInd? {
      TransmitCases(m, id, input.msg);
    }
    hide Confirm, Release, Transmit;
    assert m.log + [] == m.log;
  }

  lemma ConnectedIsLive(m: Medium, id: NodeId)
    requires Inv(m)
    ensures Connected(Observe(m.log), id) <==> id in m.heap
  {
    hide Observe, Lawful;
  }

  lemma TakenShape(e: Endian, id: NodeId, sent: seq<Parcel>, k: nat, a: Act, now: nat)
    requires id < TWO64 && k < |sent| && InPlace(e, sent, k) && !sent[k].Leaving()
    requires [a] == Taken(id, InputOf(e, id, sent[k]), now)
    ensures sent[k].RegConfirm? ==> a == Confirmed(id)
    ensures sent[k].CcaRequest? ==> a == CcaAsked(id)
    ensures sent[k].Data? ==> a.TxBegan? && a.id == id && !Overrun(a.msg)
    ensures !Joins(a, id) && !Reaches(a, id) && forall x :: x != id ==> !TakesIn(a, x)
  {
    if sent[k].Data? {
      DataHolds(e, id, sent, k);
    }
    hide Encode, Overrun;
  }

  lemma ReadTied(kind: Kind, host: Endian, log: seq<Act>, a: Act, c: Client, id: NodeId, now: nat)
    requires Lawful(kind, host, log) && Tied(host, log, c, id) && Connected(Observe(log), id)
    requires c.read < |c.sent| && !c.sent[c.read].Leaving()
    requires [a] == Taken(id, InputOf(host, id, c.sent[c.read]), now)
    ensures Tied(host, log + [a], c.(read := c.read + 1), id)
  {
    hide Observe, Lawful, Inbox, Asked, Began, Accounted, InPlace, Encode, Taken, After, TakesIn, Joins, Reaches;
    assert InPlace(host, c.sent, c.read);
    hide Ordered;
    TakenShape(host, id, c.sent, c.read, a, now);
    Append(kind, host, log, a);
    Ledger(kind, host, log, id);
    AirFacts(kind, host, log);
    AppendOne(log, a, id);
    ReadStep(host, c, Observe(log), After(Observe(log), a), Inbox(log, id), Asked(log, id), Began(log, id), id);
    NotRegistering(Observe(log), a, id);
    hide Matched;
    assert Inbox(log, id) + [] == Inbox(log, id);
  }

  /** A parcel other than the farewells is read, and the books follow. */
  lemma ReadKeeps(kind: Kind, host: Endian, log: seq<Act>, a: Act, clients: map<NodeId, Client>, id: NodeId, now: nat)
    requires Lawful(kind, host, log + [a]) && Lawful(kind, host, log) && Linked(host, log, clients)
    requires Connected(Observe(log), id) && id in clients && clients[id].read < |clients[id].sent|
    requires !clients[id].sent[clients[id].read].Leaving()
    requires [a] == Taken(id, InputOf(host, id, clients[id].sent[clients[id].read]), now)
    ensures Linked(host, log + [a], clients[id := clients[id].(read := clients[id].read + 1)])
  {
    hide Observe, Lawful, InPlace, Encode, Taken, TakesIn;
    var c := clients[id];
    assert Tied(host, log, c, id) && InPlace(host, c.sent, c.read) && id < TWO64;
    hide Linked, Connected, Matched;
    ReadTied(kind, host, log, a, c, id, now);
    TakenShape(host, id, c.sent, c.read, a, now);
    hide Tied;
    ActKeeps(kind, host, log, a, clients, clients[id := c.(read := c.read + 1)], id);
  }

  lemma NotRegistering(v: View, a: Act, id: NodeId)
    requires v.registering !! v.registered
    ensures a == Confirmed(id) || ((a == CcaAsked(id) || (a.TxBegan? && a.id == id)) && id in v.registered) ==>
              id !in After(v, a).registering
  {}

  lemma LeaveKeeps(kind: Kind, host: Endian, log: seq<Act>, clients: map<NodeId, Client>, clients': map<NodeId, Client>,
                   id: NodeId)
    requires Lawful(kind, host, log + [Departed(id)]) && Linked(host, log, clients)
    requires forall x :: x != id && x in clients ==> x in clients' && clients'[x] == clients[x]
    ensures Linked(host, log + [Departed(id)], clients')
  {
    Append(kind, host, log, Departed(id));
    hide Observe, Lawful, Linked, Tied;
    assert !Connected(Observe(log + [Departed(id)]), id);
    ActKeeps(kind, host, log, Departed(id), clients, clients', id);
  }

  lemma JoinKeeps(kind: Kind, host: Endian, log: seq<Act>, clients: map<NodeId, Client>, id: NodeId, at: nat)
    requires Lawful(kind, host, log + [Joined(id, at)]) && Linked(host, log, clients) && id < TWO64
    ensures Linked(host, log + [Joined(id, at)], clients[id := Client([], 0, 0)])
  {
    var a := Joined(id, at);
    Append(kind, host, log, a);
    AppendOne(log, a, id);
    CountOne([], a);
    assert [] + [a] == [a];
    hide Observe, Lawful, Linked, Inbox, Asked, Began;
    assert Matched(Client([], 0, 0), Observe(log + [a]), [a], 0, 0, id);
    hide Matched;
    ActKeeps(kind, host, log, a, clients, clients[id := Client([], 0, 0)], id);
  }

  lemma TakenKeeps(kind: Kind, host: Endian, log: seq<Act>, clients: map<NodeId, Client>, id: NodeId, now: nat)
    requires Lawful(kind, host, log) && Linked(host, log, clients) && Connected(Observe(log), id)
    requires id in clients && clients[id].read < |clients[id].sent| && !clients[id].sent[clients[id].read].Close?
    requires Lawful(kind, host, log + Taken(id, InputOf(host, id, clients[id].sent[clients[id].read]), now))
    ensures var c := clients[id];
            Linked(host, log + Taken(id, InputOf(host, id, c.sent[c.read]), now), clients[id := c.(read := c.read + 1)])
  {
    hide Observe, Lawful, Linked, Connected, Encode;
    var c := clients[id];
    var p := c.sent[c.read];
    var acts := Taken(id, InputOf(host, id, p), now);
    if p.DeregRequest? {
      assert log + acts == (log + [DeregTold(id)]) + [Departed(id)];
      Append(kind, host, log + [DeregTold(id)], Departed(id));
      NeutralActKeeps(kind, host, log, DeregTold(id), clients);
      LeaveKeeps(kind, host, log + [DeregTold(id)], clients, clients[id := c.(read := c.read + 1)], id);
    } else {
      assert acts == [acts[0]];
      ReadKeeps(kind, host, log, acts[0], clients, id, now);
    }
  }

  lemma RecvStep(w: World, id: NodeId, bytes: seq<Byte>, input: Input)
    requires Inv(w.m) && Running(w.m) && Connected(Observe(w.m.log), id) && id in w.clients
    requires ReadMsg(w.m.host, id, bytes) == input && Permitted(Observe(w.m.log), id, input)
    ensures Legitimate(w.m.host, Observe(w.m.log), Recv(id, bytes))
    ensures var w', c := Step(w, Serve(Recv(id, bytes))), w.clients[id];
            && w'.clients == w.clients[id := c.(read := c.read + 1)] && w'.m.log == w.m.log + Taken(id, input, w.m.now)
            && w'.m == HandleEvent(w.m, Recv(id, bytes)) && Inv(w'.m) && Lawful'(w'.m) && Lawful'(w.m)
  {
    hide Observe, Lawful, ReadMsg, Inv, Permitted, Handle;
    ConnectedIsLive(w.m, id);
    HandleLog(w.m, id, input);
    assert Legitimate(w.m.host, Observe(w.m.log), Recv(id, bytes));
    EventKeeps1(w.m, Recv(id, bytes));
  }

  /** Reading from a connected client: the parcel is what its bytes say, the event is legitimate, and the books follow. */
  lemma RecvKeeps(w: World, id: NodeId, bytes: seq<Byte>)
    requires Inv(w.m) && Running(w.m) && Linked(w.m.host, w.m.log, w.clients) && InOrder(w, Serve(Recv(id, bytes)))
    requires Connected(Observe(w.m.log), id)
    ensures Legitimate(w.m.host, Observe(w.m.log), Recv(id, bytes))
    ensures var w' := Step(w, Serve(Recv(id, bytes))); Linked(w'.m.host, w'.m.log, w'.clients) && w'.m.host == w.m.host
  {
    hide Observe, Lawful, Linked, InOrder, ReadMsg, Inv, Permitted, Connected, Encode, Handle, Step, Legitimate, Taken,
         InputOf, HandleEvent;
    RecvInput(w, id, bytes);
    var c := w.clients[id];
    RecvStep(w, id, bytes, InputOf(w.m.host, id, c.sent[c.read]));
    EventAside(w.m, Recv(id, bytes));
    TakenKeeps(w.m.kind, w.m.host, w.m.log, w.clients, id, w.m.now);
  }

  lemma EventKeeps1(m: Medium, e: Event)
    requires Inv(m)
    ensures Legitimate(m.host, Observe(m.log), e) && Running(m) ==> Inv(HandleEvent(m, e)) && Lawful'(HandleEvent(m, e))
    ensures Lawful'(m)
  {
    if Running(m) {
      EventKeeps(m, e);
    }
  }

  /** What the simulator makes of the bytes, and that it may. */
  lemma RecvInput(w: World, id: NodeId, bytes: seq<Byte>)
    requires Inv(w.m) && Linked(w.m.host, w.m.log, w.clients) && InOrder(w, Serve(Recv(id, bytes)))
    requires Connected(Observe(w.m.log), id)
    ensures id in w.clients
    ensures var c, v := w.clients[id], Observe(w.m.log);
            && c.read < |c.sent| && !c.sent[c.read].Close?
            && ReadMsg(w.m.host, id, bytes) == InputOf(w.m.host, id, c.sent[c.read])
            && Permitted(v, id, InputOf(w.m.host, id, c.sent[c.read]))
  {
    var m, c := w.m, w.clients[id];
    var inbox := Inbox(m.log, id);
    assert Tied(m.host, m.log, c, id) && InPlace(m.host, c.sent, c.read);
    Ledger(m.kind, m.host, m.log, id);
    AirFacts(m.kind, m.host, m.log);
    InboxShape(m.kind, m.host, m.log, id);
    hide Observe, Lawful, Linked, Inbox, Asked, Began, Accounted, Encode, InPlace, Reaches, Joins, Agreement, Matches,
         ReadMsg, IdInUse;
    ReadStep(m.host, c, Observe(m.log), Observe(m.log), inbox, Asked(m.log, id), Began(m.log, id), id);
    SameId(m.host, inbox, id, c.heard);
    Delivered(m.host, id, c.sent, c.read, bytes);
  }

  lemma HangupKeeps(w: World, id: NodeId)
    requires Inv(w.m) && Running(w.m) && Linked(w.m.host, w.m.log, w.clients) && InOrder(w, Serve(Hangup(id)))
    requires Connected(Observe(w.m.log), id)
    ensures Legitimate(w.m.host, Observe(w.m.log), Hangup(id))
    ensures var w' := Step(w, Serve(Hangup(id))); Linked(w'.m.host, w'.m.log, w'.clients) && w'.m.host == w.m.host
  {
    hide Observe, Lawful, Linked, Inv, Accounted, Ordered, Matched, Inbox, Asked, Began, HandleEvent;
    LeftNothing(w, id);
    HangupLog(w.m, id);
    EventKeeps1(w.m, Hangup(id));
    EventAside(w.m, Hangup(id));
    LeaveKeeps(w.m.kind, w.m.host, w.m.log, w.clients, w.clients, id);
  }

  lemma LeftNothing(w: World, id: NodeId)
    requires Inv(w.m) && Linked(w.m.host, w.m.log, w.clients) && InOrder(w, Serve(Hangup(id)))
    requires Connected(Observe(w.m.log), id)
    ensures id !in Observe(w.m.log).air && id !in Observe(w.m.log).waiting
  {
    var m, c := w.m, w.clients[id];
    assert Tied(m.host, m.log, c, id);
    Ledger(m.kind, m.host, m.log, id);
    hide Observe, Lawful, Linked, Inbox, Asked, Began, Accounted, Ordered, Matched, Agreement, Matches;
    CloseStep(c, Observe(m.log), Inbox(m.log, id), Asked(m.log, id), Began(m.log, id), id);
  }

  lemma HangupLog(m: Medium, id: NodeId)
    requires Inv(m) && Connected(Observe(m.log), id)
    requires id !in Observe(m.log).air && id !in Observe(m.log).waiting
    ensures HandleEvent(m, Hangup(id)).log == m.log + [Departed(id)]
  {
    hide Observe, Lawful;
    ReleaseCases(m, id);
    hide Release;
  }

  lemma AcceptKeepsLink(w: World, id: NodeId)
    requires Inv(w.m) && Running(w.m) && Linked(w.m.host, w.m.log, w.clients) && id < TWO64
    ensures var w' := Step(w, Serve(Accept(id))); Linked(w'.m.host, w'.m.log, w'.clients) && w'.m.host == w.m.host
  {
    hide Observe, Lawful, Linked, Inv;
    ConnectedIsLive(w.m, id);
    EventKeeps1(w.m, Accept(id));
    EventAside(w.m, Accept(id));
    hide Connected;
    if id !in w.m.heap {
      JoinKeeps(w.m.kind, w.m.host, w.m.log, w.clients, id, w.m.now);
    }
  }

  /** Every event of a well-played script is legitimate, and the books follow. */
  lemma ServeKeeps(w: World, e: Event)
    requires Inv(w.m) && Running(w.m) && Linked(w.m.host, w.m.log, w.clients) && InOrder(w, Serve(e))
    ensures Legitimate(w.m.host, Observe(w.m.log), e)
    ensures var w' := Step(w, Serve(e)); Linked(w'.m.host, w'.m.log, w'.clients) && w'.m.host == w.m.host
  {
    hide Observe, Lawful, Linked, Inv, Connected, Permitted, ReadMsg, Handle, Release, AcceptNode, Encode, IdInUse;
    match e {
      case Accept(id) => AcceptKeepsLink(w, id);
      case Recv(id, bytes) =>
        ConnectedIsLive(w.m, id);
        if Connected(Observe(w.m.log), id) {
          RecvKeeps(w, id, bytes);
        }
      case Hangup(id) =>
        ConnectedIsLive(w.m, id);
        if Connected(Observe(w.m.log), id) {
          HangupKeeps(w, id);
        }
      case _ =>
    }
  }

  /** A client's own step is invisible to the simulator. */
  lemma ClientKeeps(w: World, a: Action)
    requires Inv(w.m) && Linked(w.m.host, w.m.log, w.clients) && InOrder(w, a) && !a.Serve?
    ensures var w' := Step(w, a); w'.m == w.m && Linked(w.m.host, w.m.log, w'.clients)
  {
    hide Observe, Lawful, Tied, Connected, MaySend, Inbox;
    forall id | Connected(Observe(w.m.log), id)
      ensures id in Step(w, a).clients && Tied(w.m.host, w.m.log, Step(w, a).clients[id], id)
    {
      if id == a.id {
        OwnStepKeeps(w, a);
      }
    }
  }

  lemma OwnStepKeeps(w: World, a: Action)
    requires Inv(w.m) && InOrder(w, a) && !a.Serve? && a.id in w.clients
    requires Tied(w.m.host, w.m.log, w.clients[a.id], a.id)
    ensures Tied(w.m.host, w.m.log, Step(w, a).clients[a.id], a.id)
  {
    var m, c := w.m, w.clients[a.id];
    Ledger(m.kind, m.host, m.log, a.id);
    hide Observe, Lawful, Inbox, Asked, Began, Accounted, Ordered, Agreement, Matches, MaySend;
    if a.Send? {
      SendKeepsOrder(m.host, c.sent, HeardBy(w, a.id), a.p);
      SendKeeps(m.host, c, Observe(m.log), Inbox(m.log, a.id), Asked(m.log, a.id), Began(m.log, a.id), a.id, a.p);
    }
  }

  /** A well-played poll is a legitimate batch. */
  lemma {:induction false} PlayKeeps(w: World, actions: seq<Action>)
    requires Inv(w.m) && Alive(w.m) && Linked(w.m.host, w.m.log, w.clients) && AllInOrder(w, actions)
    ensures AllLegitimate(w.m, Events(actions))
    ensures var w' := Play(w, actions);
            w'.m == HandleEvents(w.m, Events(actions)) && Linked(w.m.host, w'.m.log, w'.clients)
    decreases |actions|
  {
    hide Observe, Lawful, Linked, Inv, Legitimate, InOrder, HandleEvent, Step;
    if actions != [] && Running(w.m) {
      var a, rest := actions[0], actions[1..];
      var w1 := Step(w, a);
      if a.Serve? {
        ServeKeeps(w, a.e);
        EventKeeps1(w.m, a.e);
        ServedMedium(w, a.e);
        EventState(w.m, a.e);
        assert Events(actions) == [a.e] + Events(rest);
        assert Events(actions)[1..] == Events(rest);
      } else {
        ClientKeeps(w, a);
        assert Events(actions) == [] + Events(rest) == Events(rest);
      }
      PlayKeeps(w1, rest);
    } else {
      NothingHappens(w, actions);
    }
  }

  predicate Alive(m: Medium)
  {
    m.state.IDLE? || m.state.TX_802514_FRAME? || m.state.STOPPING?
  }

  lemma ServedMedium(w: World, e: Event)
    ensures Step(w, Serve(e)).m == HandleEvent(w.m, e)
  {
    hide HandleEvent, Observe;
  }

  lemma NothingHappens(w: World, actions: seq<Action>)
    requires actions == [] || !Running(w.m)
    ensures AllLegitimate(w.m, Events(actions)) && HandleEvents(w.m, Events(actions)) == w.m && Play(w, actions) == w
  {}

  // Rounds and runs

  lemma PollLinked(w: World)
    requires Between(w.m) && Running(w.m) && Linked(w.m.host, w.m.log, w.clients)
    ensures var p := PolledWorld(w);
            Inv(p.m) && Alive(p.m) && p.m.host == w.m.host && Linked(p.m.host, p.m.log, p.clients)
  {
    var ms := if w.m.state.IDLE? then IDLE_POLL_MS else BUSY_POLL_MS;
    PollKeeps(w.m, ms);
    hide Observe, Lawful, Linked, Agreement, Matches;
    NeutralActKeeps(w.m.kind, w.m.host, w.m.log, Polled(ms), w.clients);
  }

  /** A well-played round is legitimate, and the books follow. */
  lemma SceneKeeps(w: World, s: Scene)
    requires Between(w.m) && Running(w.m) && Linked(w.m.host, w.m.log, w.clients)
    requires AllInOrder(PolledWorld(w), s.actions)
    ensures LegitimateRound(w.m, s.Script())
    ensures Linked(w.m.host, Round(w.m, s.Script()).log, Play(PolledWorld(w), s.actions).clients)
    ensures Round(w.m, s.Script()).host == w.m.host && Round(w.m, s.Script()).kind == w.m.kind
  {
    hide Observe, Lawful, Linked, Inv, AllInOrder, Play, HandleEvents, AllLegitimate, IdleRound, BusyRound, Events;
    var r := s.Script();
    var ms := if w.m.state.IDLE? then IDLE_POLL_MS else BUSY_POLL_MS;
    PollLinked(w);
    PlayKeeps(PolledWorld(w), s.actions);
    if w.m.state.IDLE? {
      IdleRoundKeeps(w.m, r);
    } else {
      BusyRoundKeeps(w.m, r);
    }
    RestOfRound(w.m, r);
    var polled := Interval(w.m, ms, r.batch);
    assert polled == HandleEvents(PolledWorld(w).m, Events(s.actions));
    EventsAside(PolledWorld(w).m, r.batch);
    OwnActsKeep(w.m.kind, w.m.host, polled.log, Round(w.m, r).log, Play(PolledWorld(w), s.actions).clients);
  }

  /** Scripts whose clients behave and whose channels keep order conform. */
  lemma {:induction false} WellPlayedConforms(w: World, scenes: seq<Scene>)
    requires Between(w.m) && Linked(w.m.host, w.m.log, w.clients) && WellPlayed(w, scenes)
    ensures Conforming(w.m, Scripts(scenes))
    ensures var w' := Perform(w, scenes);
            && w'.m == Run(w.m, Scripts(scenes)) && w'.m.host == w.m.host && w'.m.kind == w.m.kind
            && w'.m.fault.Sound? && Between(w'.m) && Linked(w.m.host, w'.m.log, w'.clients)
  {
    hide Observe, Lawful, Linked, Inv, AllInOrder, Play, Round, LegitimateRound;
    if scenes != [] {
      var n := |scenes| - 1;
      WellPlayedConforms(w, scenes[..n]);
      var w1, rounds := Perform(w, scenes[..n]), Scripts(scenes);
      assert rounds[..n] == Scripts(scenes[..n]) && rounds[n] == scenes[n].Script();
      if Running(w1.m) {
        SceneKeeps(w1, scenes[n]);
      } else {
        NotRunning(w1.m, rounds[n]);
        Halted(w1.m, rounds[n]);
      }
      EveryRun(w.m, rounds);
      Honest(w, scenes);
    } else {
      SoundStart(w.m);
    }
  }

  lemma SoundStart(m: Medium)
    requires Between(m)
    ensures m.fault.Sound?
  {
    hide Observe, Lawful, Agreement, Matches;
  }

  lemma Honest(w: World, scenes: seq<Scene>)
    requires Lawful(w.m.kind, w.m.host, Perform(w, scenes).m.log)
    requires Linked(w.m.host, Perform(w, scenes).m.log, Perform(w, scenes).clients)
    ensures !Observe(Perform(w, scenes).m.log).overran
  {
    hide Observe, Lawful, Perform, AllHold;
    HonestLog(w.m.kind, w.m.host, Perform(w, scenes).m.log);
  }

  /** From the start, any number of clients that behave, over channels that keep order, never drive the medium to a throw,
      a failed assert or undefined behaviour of the model; the run is the run of the scripts the simulator gets to see, and
      its books balance. */
  lemma WellPlayedRun(kind: Kind, host: Endian, now: nat, curTime: Timespec.TimeVal, scenes: seq<Scene>, id: NodeId)
    requires WellPlayed(World(Initial(kind, host, now, curTime), map[]), scenes)
    ensures Conforming(Initial(kind, host, now, curTime), Scripts(scenes))
    ensures var m := Run(Initial(kind, host, now, curTime), Scripts(scenes));
            m.fault.Sound? && AllHold(m.log) && Balanced(m) && InStep(m, id)
  {
    var start := Initial(kind, host, now, curTime);
    InitialIsSound(kind, host, now, curTime);
    assert Linked(host, start.log, map[]) by { NobodyYet(host); }
    hide Observe, Lawful, Inv, Run, WellPlayed, Conforming, Balanced, InStep, Scripts;
    WellPlayedConforms(World(start, map[]), scenes);
    hide Tied, Perform;
    InvBalances(Run(start, Scripts(scenes)), id);
  }

  lemma NobodyYet(host: Endian)
    ensures Linked(host, [], map[])
  {}
}
