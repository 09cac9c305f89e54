/** What the observer's rules mean for whole logs, stated without the observer's state: by positions in the log. */
module Traces {
  import opened Bytes
  import opened Wire
  import opened Protocol
  import opened Observer
  import opened Invariant

  /** The nodes in the air after the first k acts. */
  function Air(log: seq<Act>, k: nat): seq<NodeId>
    requires k <= |log|
  {
    Observe(log[..k]).air
  }

  lemma {:induction false} LawfulAt(kind: Kind, host: Endian, log: seq<Act>, i: nat)
    requires Lawful(kind, host, log) && i < |log|
    ensures Lawful(kind, host, log[..i])
    ensures Allowed(kind, host, Observe(log[..i]), log[i])
    ensures Observe(log[..i + 1]) == After(Observe(log[..i]), log[i])
    decreases |log|
  {
    hide Allowed, After;
    var n := |log| - 1;
    assert log[..i + 1][..i] == log[..i];
    if i < n {
      LawfulAt(kind, host, log[..n], i);
      assert log[..n][..i] == log[..i];
    } else {
      assert log[..i + 1] == log;
    }
  }

  /** A node is in the air at most once, and only when registered. */
  lemma {:induction false} AirFacts(kind: Kind, host: Endian, log: seq<Act>)
    requires Lawful(kind, host, log)
    ensures var v := Observe(log);
            && NoDup(v.air) && v.registering !! v.registered
            && (forall id :: id in v.air ==> id in v.registered)
  {
    if log != [] {
      var n := |log| - 1;
      AirFacts(kind, host, log[..n]);
      AirStep(kind, host, Observe(log[..n]), log[n]);
    }
  }

  lemma AirStep(kind: Kind, host: Endian, v: View, a: Act)
    requires NoDup(v.air) && v.registering !! v.registered && Allowed(kind, host, v, a)
    requires forall id :: id in v.air ==> id in v.registered
    ensures var v' := After(v, a);
            && NoDup(v'.air) && v'.registering !! v'.registered
            && (forall id :: id in v'.air ==> id in v'.registered)
  {
    hide FaithfulCopy, Overrun, Airtime;
    if a.TxEnded? {
      WithoutFacts(v.air, a.id);
    }
  }

  // One transmission

  predicate Begins(a: Act, id: NodeId, msg: seq<Byte>)
  {
    a.TxBegan? && a.id == id && a.msg == msg
  }

  predicate Ends(a: Act, id: NodeId, result: int)
  {
    a.TxEnded? && a.id == id && a.result == result
  }

  predicate Joins(a: Act, id: NodeId)
  {
    a.Joined? && a.id == id
  }

  /** id's transmission of msg that begins at position b is still in the air after k acts. */
  predicate InStay(log: seq<Act>, b: nat, k: nat, id: NodeId, msg: seq<Byte>)
  {
    && b < k <= |log| && Begins(log[b], id, msg)
    && forall j :: b < j < k ==> !(log[j].TxEnded? && log[j].id == id)
  }

  ghost predicate SharedAt(log: seq<Act>, j: nat)
  {
    j <= |log| && |Air(log, j)| > 1
  }

  ghost predicate CheckAt(log: seq<Act>, j: nat)
  {
    j < |log| && log[j].Checked?
  }

  /** What the observer's flags say of a transmission, by positions. */
  ghost predicate StayMeaning(log: seq<Act>, b: nat, k: nat, id: NodeId, msg: seq<Byte>)
    requires b < k <= |log|
  {
    var v := Observe(log[..k]);
    && id in v.air && id in v.sent && v.sent[id] == msg
    && log[b].TxBegan? && id in v.due && v.due[id] == log[b].at + Airtime(msg)
    && (id in v.overlapped <==> exists j :: b < j <= k && SharedAt(log, j))
    && (id in v.seen <==> exists j :: b < j < k && CheckAt(log, j) && SharedAt(log, j))
    && (id in v.met <==> exists j :: b < j < k && CheckAt(log, j))
  }

  lemma FirstInstant(log: seq<Act>, b: nat)
    requires b < |log|
    ensures (exists j :: b < j <= b + 1 && SharedAt(log, j)) <==> SharedAt(log, b + 1)
  {
    hide SharedAt;
  }

  lemma StayBegins(kind: Kind, host: Endian, log: seq<Act>, b: nat, id: NodeId, msg: seq<Byte>)
    requires Lawful(kind, host, log) && b < |log| && Begins(log[b], id, msg)
    ensures StayMeaning(log, b, b + 1, id, msg)
  {
    LawfulAt(kind, host, log, b);
    hide Observe, Lawful, Allowed;
    assert |Air(log, b + 1)| == |Air(log, b)| + 1;
    assert SharedAt(log, b + 1) <==> Air(log, b) != [];
    hide SharedAt, CheckAt;
    FirstInstant(log, b);
  }

  lemma StayContinues(kind: Kind, host: Endian, log: seq<Act>, b: nat, k: nat, id: NodeId, msg: seq<Byte>)
    requires Lawful(kind, host, log) && InStay(log, b, k + 1, id, msg) && b < k
    requires StayMeaning(log, b, k, id, msg)
    ensures StayMeaning(log, b, k + 1, id, msg)
  {
    LawfulAt(kind, host, log, k);
    LawfulAt(kind, host, log, b);
    AirFacts(kind, host, log[..k]);
    hide Observe, Lawful, FaithfulCopy, Overrun, Airtime;
    var v, a, v' := Observe(log[..k]), log[k], Observe(log[..k + 1]);
    assert !(a.TxBegan? && a.id == id);
    hide Allowed, After;
    assert SharedAt(log, k) <==> |v.air| > 1;
    assert SharedAt(log, k + 1) <==> |v'.air| > 1;
    assert CheckAt(log, k) <==> a.Checked?;
    StayOverlap(v, a, v', id);
    StayWitness(log, b, k);
  }

  /** Between two positions of a stay: sharing grows only when another transmission begins, checks only at a check. */
  lemma StayOverlap(v: View, a: Act, v': View, id: NodeId)
    requires v' == After(v, a) && NoDup(v.air)
    requires id in v.air && !(a.TxEnded? && a.id == id) && !(a.TxBegan? && a.id == id)
    ensures id in v'.air
    ensures id in v'.overlapped <==> id in v.overlapped || a.TxBegan?
    ensures a.TxBegan? ==> |v'.air| > 1
    ensures !a.TxBegan? ==> |v'.air| <= |v.air|
    ensures id in v'.seen <==> id in v.seen || (a.Checked? && |v.air| > 1)
    ensures id in v'.met <==> id in v.met || a.Checked?
    ensures id in v.sent ==> id in v'.sent && v'.sent[id] == v.sent[id]
    ensures id in v.due ==> id in v'.due && v'.due[id] == v.due[id]
  {
    hide Overrun, Airtime;
    if a.TxEnded? {
      WithoutFacts(v.air, a.id);
    }
  }

  lemma StayWitness(log: seq<Act>, b: nat, k: nat)
    requires b < k < |log|
    ensures (exists j :: b < j <= k + 1 && SharedAt(log, j)) <==>
            (exists j :: b < j <= k && SharedAt(log, j)) || SharedAt(log, k + 1)
    ensures (exists j :: b < j < k + 1 && CheckAt(log, j) && SharedAt(log, j)) <==>
            (exists j :: b < j < k && CheckAt(log, j) && SharedAt(log, j)) || (CheckAt(log, k) && SharedAt(log, k))
    ensures (exists j :: b < j < k + 1 && CheckAt(log, j)) <==>
            (exists j :: b < j < k && CheckAt(log, j)) || CheckAt(log, k)
  {}

  lemma {:induction false} StayIs(kind: Kind, host: Endian, log: seq<Act>, b: nat, k: nat, id: NodeId, msg: seq<Byte>)
    requires Lawful(kind, host, log) && InStay(log, b, k, id, msg)
    ensures StayMeaning(log, b, k, id, msg)
  {
    hide StayMeaning, Lawful, Observe;
    if k == b + 1 {
      StayBegins(kind, host, log, b, id, msg);
    } else {
      StayIs(kind, host, log, b, k - 1, id, msg);
      StayContinues(kind, host, log, b, k - 1, id, msg);
    }
  }

  /** The Tx Done of a transmission says COLLIDED exactly when, on a powerline, another node was in the air at some
      instant of its stay; that is so exactly when some collision check during the stay saw another node. At least one
      check falls inside every stay. On the wireless medium the result is always OK. */
  lemma CollidedExactlyWhenOverlapped(kind: Kind, host: Endian, log: seq<Act>, b: nat, e: nat, id: NodeId,
                                      msg: seq<Byte>, result: int)
    requires Lawful(kind, host, log) && InStay(log, b, e, id, msg) && e < |log| && Ends(log[e], id, result)
    ensures result == TX_DONE_COLLIDED || result == TX_DONE_OK
    ensures result == TX_DONE_COLLIDED <==> kind.Powerline? && exists j :: b < j <= e && SharedAt(log, j)
    ensures (exists j :: b < j <= e && SharedAt(log, j)) <==>
            (exists j :: b < j < e && CheckAt(log, j) && SharedAt(log, j))
    ensures exists j :: b < j < e && CheckAt(log, j)
  {
    StayIs(kind, host, log, b, e, id, msg);
    LawfulAt(kind, host, log, e);
  }

  /** Two transmissions in the air at the same instant of a powerline both end COLLIDED. */
  lemma OverlappingBothCollide(host: Endian, log: seq<Act>, id1: NodeId, id2: NodeId, b1: nat, e1: nat, b2: nat, e2: nat,
                               m1: seq<Byte>, m2: seq<Byte>, r1: int, r2: int)
    requires Lawful(Powerline, host, log) && id1 != id2
    requires InStay(log, b1, e1, id1, m1) && e1 < |log| && Ends(log[e1], id1, r1)
    requires InStay(log, b2, e2, id2, m2) && e2 < |log| && Ends(log[e2], id2, r2)
    requires b1 < e2 && b2 < e1
    ensures r1 == r2 == TX_DONE_COLLIDED
  {
    hide Lawful, Observe, CheckAt, Airtime;
    // The later of the two beginnings is an instant of both stays.
    var j := if b1 < b2 then b2 + 1 else b1 + 1;
    InStayPrefix(log, b1, j, e1, id1, m1);
    InStayPrefix(log, b2, j, e2, id2, m2);
    StayIs(Powerline, host, log, b1, j, id1, m1);
    StayIs(Powerline, host, log, b2, j, id2, m2);
    var air := Air(log, j);
    var p, q :| 0 <= p < |air| && air[p] == id1 && 0 <= q < |air| && air[q] == id2;
    assert SharedAt(log, j);
    CollidedExactlyWhenOverlapped(Powerline, host, log, b1, e1, id1, m1, r1);
    CollidedExactlyWhenOverlapped(Powerline, host, log, b2, e2, id2, m2, r2);
  }

  lemma InStayPrefix(log: seq<Act>, b: nat, j: nat, e: nat, id: NodeId, msg: seq<Byte>)
    requires InStay(log, b, e, id, msg) && b < j <= e
    ensures InStay(log, b, j, id, msg)
  {}

  /** A Tx Done of OK is followed at once by the multicast of that message, changed only in the rssi byte and the checksum
      field; a multicast occurs nowhere else. On a powerline the message was alone in the air throughout its stay. */
  lemma MulticastExactlyAfterOk(kind: Kind, host: Endian, log: seq<Act>, b: nat, e: nat, id: NodeId, msg: seq<Byte>,
                                result: int)
    requires Lawful(kind, host, log) && InStay(log, b, e, id, msg) && e + 1 < |log| && Ends(log[e], id, result)
    ensures log[e + 1].Multicast? <==> result == TX_DONE_OK
    ensures log[e + 1].Multicast? ==> log[e + 1].id == id && FaithfulCopy(host, msg, log[e + 1].frame)
    ensures log[e + 1].Multicast? && kind.Powerline? ==> forall j :: b < j <= e ==> Air(log, j) == [id]
  {
    StayIs(kind, host, log, b, e, id, msg);
    LawfulAt(kind, host, log, e);
    LawfulAt(kind, host, log, e + 1);
    hide SharedAt, CheckAt, Lawful, Observe;
    OwedMulticast(kind, host, Observe(log[..e]), id, result, log[e].at, log[e + 1]);
    hide Allowed, After, StayMeaning;
    if log[e + 1].Multicast? && kind.Powerline? {
      forall j | b < j <= e
        ensures Air(log, j) == [id]
      {
        AloneAt(kind, host, log, b, j, e, id, msg);
      }
    }
  }

  lemma OwedMulticast(kind: Kind, host: Endian, v: View, id: NodeId, result: int, at: nat, next: Act)
    requires Allowed(kind, host, v, TxEnded(id, result, at)) && Allowed(kind, host, After(v, TxEnded(id, result, at)), next)
    ensures next.Multicast? <==> result == TX_DONE_OK
    ensures next.Multicast? ==> next.id == id && id in v.sent && FaithfulCopy(host, v.sent[id], next.frame)
    ensures next.Multicast? && kind.Powerline? ==> id !in v.overlapped
  {
    hide FaithfulCopy, Overrun, Airtime;
  }

  lemma AloneAt(kind: Kind, host: Endian, log: seq<Act>, b: nat, j: nat, e: nat, id: NodeId, msg: seq<Byte>)
    requires Lawful(kind, host, log) && InStay(log, b, e, id, msg) && b < j <= e
    requires id !in Observe(log[..e]).overlapped
    ensures Air(log, j) == [id]
  {
    hide Lawful, Observe, CheckAt, Airtime;
    StayIs(kind, host, log, b, e, id, msg);
    assert !SharedAt(log, j);
    InStayPrefix(log, b, j, e, id, msg);
    StayIs(kind, host, log, b, j, id, msg);
  }

  // Channel assessment

  function AskedIds(log: seq<Act>): seq<NodeId>
  {
    if log == [] then []
    else
      var a := log[|log| - 1];
      AskedIds(log[..|log| - 1]) + if a.CcaAsked? then [a.id] else []
  }

  function ToldIds(log: seq<Act>): seq<NodeId>
  {
    if log == [] then []
    else
      var a := log[|log| - 1];
      ToldIds(log[..|log| - 1]) + if a.CcaTold? then [a.id] else []
  }

  /** Confirms answer requests one for one in request order, and what is unanswered is what the observer has waiting. */
  lemma {:induction false} AnsweredInOrder(kind: Kind, host: Endian, log: seq<Act>)
    requires Lawful(kind, host, log)
    ensures AskedIds(log) == ToldIds(log) + Observe(log).waiting
  {
    if log != [] {
      var n := |log| - 1;
      AnsweredInOrder(kind, host, log[..n]);
      AnswerStep(kind, host, Observe(log[..n]), log[n], ToldIds(log[..n]));
    }
  }

  lemma AnswerStep(kind: Kind, host: Endian, v: View, a: Act, told: seq<NodeId>)
    requires Allowed(kind, host, v, a)
    ensures told + (if a.CcaTold? then [a.id] else []) + After(v, a).waiting ==
            told + v.waiting + (if a.CcaAsked? then [a.id] else [])
  {
    hide FaithfulCopy, Overrun, Airtime;
    if a.CcaTold? {
      assert v.waiting == [a.id] + v.waiting[1..];
    } else if a.CcaAsked? {
      assert told + [] == told;
    }
  }

  /** Every confirm says clear exactly when nobody is in the air at that instant. */
  lemma ClearExactlyWhenSilent(kind: Kind, host: Endian, log: seq<Act>, i: nat)
    requires Lawful(kind, host, log) && i < |log| && log[i].CcaTold?
    ensures log[i].clear <==> Air(log, i) == []
  {
    LawfulAt(kind, host, log, i);
  }

  // Counting

  function Count(log: seq<Act>, p: Act -> bool): nat
  {
    if log == [] then 0 else Count(log[..|log| - 1], p) + if p(log[|log| - 1]) then 1 else 0
  }

  /** How often id has been destroyed. */
  predicate Destroys(a: Act, id: NodeId)
  {
    (a.Departed? && a.id == id) || (a.TimedOut? && id in a.ids)
  }

  /** Exactly once: begun minus ended is 1 while the node is in the air and 0 otherwise; joined minus destroyed is 1 while it
      is connected and 0 otherwise. */
  lemma {:induction false} ExactlyOnce(kind: Kind, host: Endian, log: seq<Act>, id: NodeId)
    requires Lawful(kind, host, log)
    ensures var v := Observe(log);
            && Count(log, (a: Act) => a.TxBegan? && a.id == id) ==
               Count(log, (a: Act) => a.TxEnded? && a.id == id) + (if id in v.air then 1 else 0)
            && Count(log, (a: Act) => a.Joined? && a.id == id) ==
               Count(log, (a: Act) => Destroys(a, id)) + (if id in v.registering || id in v.registered then 1 else 0)
  {
    if log != [] {
      var n := |log| - 1;
      ExactlyOnce(kind, host, log[..n], id);
      AirFacts(kind, host, log[..n]);
      OnceStep(kind, host, Observe(log[..n]), log[n], id);
    }
  }

  lemma OnceStep(kind: Kind, host: Endian, v: View, a: Act, id: NodeId)
    requires Allowed(kind, host, v, a) && NoDup(v.air) && v.registering !! v.registered
    ensures var v' := After(v, a);
            var live, live' := id in v.registering || id in v.registered, id in v'.registering || id in v'.registered;
            && (id in v'.air <==> (id in v.air && !(a.TxEnded? && a.id == id)) || (a.TxBegan? && a.id == id))
            && (a.TxBegan? && a.id == id ==> id !in v.air) && (a.TxEnded? && a.id == id ==> id in v.air)
            && (live' <==> (live && !Destroys(a, id)) || (a.Joined? && a.id == id))
            && (a.Joined? && a.id == id ==> !live) && (Destroys(a, id) ==> live)
  {
    hide FaithfulCopy, Overrun, Airtime;
    if a.TxEnded? {
      WithoutFacts(v.air, a.id);
    }
  }

  /** Medium-wide totals. */
  lemma {:induction false} Totals(kind: Kind, host: Endian, log: seq<Act>)
    requires Lawful(kind, host, log)
    ensures var v := Observe(log);
            && Count(log, (a: Act) => a.TxEnded?) == v.oks + v.collisions
            && Count(log, (a: Act) => a.Multicast?) == v.copies == v.oks - (if v.owes.Owes? then 1 else 0)
            && Count(log, (a: Act) => a.TxEnded? && a.result == TX_DONE_OK) == v.oks
  {
    if log != [] {
      var n := |log| - 1;
      Totals(kind, host, log[..n]);
      TotalsStep(kind, host, Observe(log[..n]), log[n]);
      hide Allowed, After;
    }
  }

  lemma TotalsStep(kind: Kind, host: Endian, v: View, a: Act)
    requires Allowed(kind, host, v, a)
    ensures var v' := After(v, a);
            && v'.oks == v.oks + (if a.TxEnded? && a.result == TX_DONE_OK then 1 else 0)
            && v'.oks + v'.collisions == v.oks + v.collisions + (if a.TxEnded? then 1 else 0)
            && v'.copies == v.copies + (if a.Multicast? then 1 else 0)
            && (v.copies == v.oks - (if v.owes.Owes? then 1 else 0) ==>
                  v'.copies == v'.oks - (if v'.owes.Owes? then 1 else 0))
  {
    hide FaithfulCopy, Overrun, Airtime, Without;
  }

  /** Packets begun and not yet ended are the ones in the air. */
  lemma {:induction false} LivePackets(kind: Kind, host: Endian, log: seq<Act>)
    requires Lawful(kind, host, log)
    ensures Count(log, (a: Act) => a.TxBegan?) == Count(log, (a: Act) => a.TxEnded?) + |Observe(log).air|
  {
    hide FaithfulCopy, Overrun, Airtime;
    if log != [] {
      var n := |log| - 1;
      LivePackets(kind, host, log[..n]);
      AirFacts(kind, host, log[..n]);
      AirCount(kind, host, Observe(log[..n]), log[n]);
      hide Allowed, After;
    }
  }

  lemma AirCount(kind: Kind, host: Endian, v: View, a: Act)
    requires Allowed(kind, host, v, a) && NoDup(v.air)
    ensures |After(v, a).air| == |v.air| + (if a.TxBegan? then 1 else 0) - if a.TxEnded? then 1 else 0
  {
    hide FaithfulCopy, Overrun, Airtime;
    if a.TxEnded? {
      WithoutFacts(v.air, a.id);
    }
  }

  // Ownership

  function Destroyed(log: seq<Act>): nat
  {
    if log == [] then 0
    else
      var a := log[|log| - 1];
      Destroyed(log[..|log| - 1]) + if a.Departed? then 1 else if a.TimedOut? then |a.ids| else 0
  }

  /** Every accepted node is registering, registered or destroyed: the numbers add up. */
  lemma {:induction false} Ownership(kind: Kind, host: Endian, log: seq<Act>)
    requires Lawful(kind, host, log)
    ensures var v := Observe(log);
            Count(log, (a: Act) => a.Joined?) == |v.registering| + |v.registered| + Destroyed(log)
  {
    if log != [] {
      var n := |log| - 1;
      Ownership(kind, host, log[..n]);
      AirFacts(kind, host, log[..n]);
      OwnershipStep(kind, host, Observe(log[..n]), log[n]);
    }
  }

  lemma OwnershipStep(kind: Kind, host: Endian, v: View, a: Act)
    requires Allowed(kind, host, v, a) && v.registering !! v.registered
    ensures var v' := After(v, a);
            |v'.registering| + |v'.registered| + (if a.Departed? then 1 else if a.TimedOut? then |a.ids| else 0) ==
            |v.registering| + |v.registered| + if a.Joined? then 1 else 0
  {
    hide FaithfulCopy, Overrun, Airtime, Without, Overstates;
    match a {
      case Joined(id, _) =>
      case Departed(id) => RemoveOne(v.registering, v.registered, id);
      case Confirmed(id) => RemoveOne(v.registering, v.registered, id);
      case TimedOut(ids, _) => RemoveSome(v.registering, ids);
      case _ => assert After(v, a).registering == v.registering && After(v, a).registered == v.registered;
    }
  }

  lemma RemoveSome(s: set<NodeId>, t: set<NodeId>)
    requires t <= s
    ensures |s - t| + |t| == |s|
  {
    assert s == (s - t) + t;
  }

  lemma RemoveOne(s: set<NodeId>, t: set<NodeId>, id: NodeId)
    requires s !! t && (id in s || id in t)
    ensures |s - {id}| + |t - {id}| == |s| + |t| - 1
    ensures id in s ==> |s - {id}| + |t + {id}| == |s| + |t|
  {
    assert id !in s ==> s - {id} == s;
    assert id !in t ==> t - {id} == t;
  }

  // Registration

  /** A node whose confirm was handled is not destroyed by a timeout, unless the id has joined again since. */
  lemma ConfirmedNeverTimesOut(kind: Kind, host: Endian, log: seq<Act>, i: nat, j: nat, id: NodeId)
    requires Lawful(kind, host, log) && i < j < |log|
    requires log[i] == Confirmed(id) && log[j].TimedOut? && id in log[j].ids
    ensures exists k :: i < k < j && Joins(log[k], id)
  {
    LawfulAt(kind, host, log, i);
    LawfulAt(kind, host, log, j);
    if forall k :: i < k < j ==> !Joins(log[k], id) {
      NotRegisteringUntilJoined(kind, host, log, i, j, id);
    }
  }

  lemma {:induction false} NotRegisteringUntilJoined(kind: Kind, host: Endian, log: seq<Act>, i: nat, j: nat, id: NodeId)
    requires Lawful(kind, host, log) && i < j <= |log| && log[i] == Confirmed(id)
    requires forall k :: i < k < j ==> !Joins(log[k], id)
    ensures id !in Observe(log[..j]).registering
  {
    LawfulAt(kind, host, log, j - 1);
    hide Observe, Lawful, Allowed, After;
    if j - 1 > i {
      NotRegisteringUntilJoined(kind, host, log, i, j - 1, id);
    }
    OnlyJoinedRegisters(Observe(log[..j - 1]), log[j - 1], id);
  }

  lemma OnlyJoinedRegisters(v: View, a: Act, id: NodeId)
    requires id !in v.registering || a == Confirmed(id)
    requires !Joins(a, id)
    ensures id !in After(v, a).registering
  {}

  // Time

  /** A Tx Done is sent at the earliest 4 ms after its data indication was taken, or 1 ns after for an acknowledgement. */
  lemma NoTxDoneBeforeItsTime(kind: Kind, host: Endian, log: seq<Act>, b: nat, e: nat, id: NodeId, msg: seq<Byte>, result: int)
    requires Lawful(kind, host, log) && InStay(log, b, e, id, msg) && e < |log| && Ends(log[e], id, result)
    ensures log[e].at >= log[b].at + if IsAck(msg) then 1 else 4_000_000
  {
    StayIs(kind, host, log, b, e, id, msg);
    LawfulAt(kind, host, log, e);
    hide Observe, Lawful, SharedAt, CheckAt;
  }

  /** Position j is id's connection, and it has been registering ever since. */
  predicate JoinedAt(log: seq<Act>, j: nat, i: nat, id: NodeId)
  {
    j < i <= |log| && Joins(log[j], id) && forall k :: j < k < i ==> !EndsRegistering(log[k], id)
  }

  predicate EndsRegistering(a: Act, id: NodeId)
  {
    Joins(a, id) || a == Confirmed(id) || a == Departed(id) || (a.TimedOut? && id in a.ids)
  }

  /** A registering node joined once, has neither confirmed nor gone since, and its time runs from there. */
  lemma {:induction false} RegisteringSince(kind: Kind, host: Endian, log: seq<Act>, i: nat, id: NodeId) returns (j: nat)
    requires Lawful(kind, host, log) && i <= |log| && id in Observe(log[..i]).registering
    ensures JoinedAt(log, j, i, id)
    ensures var v := Observe(log[..i]); id in v.expiry && v.expiry[id] == log[j].at + REGISTRATION_NS
  {
    LawfulAt(kind, host, log, i - 1);
    hide Observe, Lawful, Allowed, After, EndsRegistering, JoinedAt;
    RegisteringStep(Observe(log[..i - 1]), log[i - 1], id);
    if Joins(log[i - 1], id) {
      j := i - 1;
    } else {
      j := RegisteringSince(kind, host, log, i - 1, id);
    }
    StillJoined(log, j, i, id);
  }

  lemma StillJoined(log: seq<Act>, j: nat, i: nat, id: NodeId)
    requires 0 < i <= |log|
    requires if j == i - 1 then Joins(log[j], id) else JoinedAt(log, j, i - 1, id) && !EndsRegistering(log[i - 1], id)
    ensures JoinedAt(log, j, i, id)
  {}

  lemma RegisteringStep(v: View, a: Act, id: NodeId)
    requires id in After(v, a).registering
    ensures if Joins(a, id) then id in After(v, a).expiry && After(v, a).expiry[id] == a.at + REGISTRATION_NS
            else id in v.registering && !EndsRegistering(a, id) &&
                 (id in v.expiry ==> id in After(v, a).expiry && After(v, a).expiry[id] == v.expiry[id])
  {
    hide Overrun, Airtime, Without;
  }

  /** Every node that times out joined at least 120 s before its timer was read, and did not confirm in between. */
  lemma NoTimeoutBeforeItsTime(kind: Kind, host: Endian, log: seq<Act>, i: nat, id: NodeId) returns (j: nat)
    requires Lawful(kind, host, log) && i < |log| && log[i].TimedOut? && id in log[i].ids
    ensures JoinedAt(log, j, i, id) && id in log[i].readings
    ensures log[i].readings[id] >= log[j].at + 120_000_000_000
  {
    LawfulAt(kind, host, log, i);
    j := RegisteringSince(kind, host, log, i, id);
  }

  /** A node that joined and has not stopped registering is registering, and its time runs from where it joined. */
  lemma {:induction false} StillRegistering(kind: Kind, host: Endian, log: seq<Act>, j: nat, i: nat, id: NodeId)
    requires Lawful(kind, host, log) && JoinedAt(log, j, i, id)
    ensures var v := Observe(log[..i]);
            id in v.registering && id in v.expiry && v.expiry[id] == log[j].at + REGISTRATION_NS
  {
    LawfulAt(kind, host, log, i - 1);
    hide Observe, Lawful, Allowed, EndsRegistering;
    if j < i - 1 {
      StillRegistering(kind, host, log, j, i - 1, id);
      assert !EndsRegistering(log[i - 1], id);
    }
    hide JoinedAt;
    RegisteringOn(Observe(log[..i - 1]), log[i - 1], id);
  }

  lemma RegisteringOn(v: View, a: Act, id: NodeId)
    ensures Joins(a, id) ==> id in After(v, a).registering && id in After(v, a).expiry
    ensures Joins(a, id) ==> After(v, a).expiry[id] == a.at + REGISTRATION_NS
    ensures id in v.registering && !EndsRegistering(a, id) ==> id in After(v, a).registering
    ensures id in v.expiry && !EndsRegistering(a, id) ==> id in After(v, a).expiry && After(v, a).expiry[id] == v.expiry[id]
  {
    hide Overrun, Airtime, Without;
  }

  /** A sweep reads the timer of every registering node, and destroys it exactly if 120 s have passed since it joined. */
  lemma TimeoutExactly(kind: Kind, host: Endian, log: seq<Act>, j: nat, i: nat, id: NodeId)
    requires Lawful(kind, host, log) && i < |log| && log[i].TimedOut? && JoinedAt(log, j, i, id)
    ensures id in log[i].readings
    ensures id in log[i].ids <==> log[i].readings[id] >= log[j].at + 120_000_000_000
  {
    LawfulAt(kind, host, log, i);
    StillRegistering(kind, host, log, j, i, id);
    hide Observe, Lawful, JoinedAt;
  }

  // Frames that announce more than they hold

  ghost predicate AllHold(log: seq<Act>)
  {
    forall i :: 0 <= i < |log| && log[i].TxBegan? ==> !Overrun(log[i].msg)
  }

  /** What is multicast was sent: if no message announces more than it holds, no frame does. */
  lemma {:induction false} HonestLog(kind: Kind, host: Endian, log: seq<Act>)
    requires Lawful(kind, host, log) && AllHold(log)
    ensures var v := Observe(log); !v.overran && forall id :: id in v.sent ==> !Overrun(v.sent[id])
  {
    if log != [] {
      var n := |log| - 1;
      HonestLog(kind, host, log[..n]);
      hide Observe, Lawful;
      if log[n].Multicast? {
        SamePsdu(host, Observe(log[..n]).sent[log[n].id], log[n].frame);
      }
      hide Overrun, FaithfulCopy;
    }
  }

  lemma SamePsdu(host: Endian, msg: seq<Byte>, frame: seq<Byte>)
    requires FaithfulCopy(host, msg, frame)
    ensures Overrun(frame) <==> Overrun(msg)
  {
    hide Passes, FromBE;
    assert frame[PSDU_LEN_OFFSET..PSDU_LEN_OFFSET + 2] == msg[PSDU_LEN_OFFSET..PSDU_LEN_OFFSET + 2];
  }
}
