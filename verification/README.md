# A model of the 802.15.4 network simulator

x6losim lets many client nodes share one simulated 802.15.4 medium. This project models the medium and its nodes, the wire
messages on both sides with their checksum, and two small arithmetic cores (`struct timespec`, the hexdump formatter), and
proves what they promise.

## How it is organised

- `Bytes`, `Checksum`, `Wire`, `Messages`, `NodeSim` (module `NodeSimulator`): byte order, `generate_checksum` against
  RFC 1071, message framing, `readMsg` of both ends, every sender of both ends, and the round trips between them.
- `Protocol`: the medium as a function of its inputs. One `Round` is one `interval` with the events it reports and the
  timer sweeps behind it; `Run` is a script of rounds. A throw, a failed `assert` and undefined behaviour are faults that
  end the run, because nothing catches an exception on the medium thread.
- `Observer`: an independent account. From the log of what was sent and received it computes who is connected, who is in
  the air and who has shared the air with whom, and says which next act is lawful. It never looks at the medium's fields.
- `Invariant`, `Runs`: every step keeps the agreement between maps, list, timers, packets and states, and its acts are
  lawful; every run is free of the modelled faults exactly when each event is in order as it arrives and no multicast frame
  announces more payload than it holds.
- `Traces`, `Guarantees`: what lawful logs mean by positions, counts and instants, and what that says of runs.
- `Clients`, `Conformance`: the same from the other end. A client judges what it may send by its own sends and by what it
  has received, under the id it was given, over channels that keep order; scripts played by such clients are in order.
- `Effects`, `Frames`: single events field by field, and real messages through the simulator: which it takes, which it
  refuses, what a corrupted one does, and what becomes of a data indication.
- `Sweeps`, `Busy`, `Clock`: the erase-while-iterating loop as a filter, the end of a busy period, the poll clock.
- `DeviceNode` (module `DeviceNodes`), `Steps`, `PhysicalMedium` (module `PhysicalMedia`): the objects themselves. The class
  `PhysicalMedium` holds two maps and two lists of `DeviceNode` objects, which hold `NetSimPacket` objects, and runs the
  nested loops of the medium thread. Each method is proved to change the objects as the `Protocol` step of the same name
  changes their value, so the theorems about runs are theorems about `PhysicalMedium.Run`.
- `Timespec`, `Hexdump`: the two arithmetic cores, as methods that change objects and arrays in place.

The clock, the arrival of messages, the accept thread and the unblocker are inputs: a script of events, and for each sweep
the instant at which each node's timer is read. Sends are appended to a log.

## What the code does that its comments do not say

- `txPacket` dumps `psdu_len` bytes of a packet, a field the client sets and nothing checks: 34 bytes that announce 65535
  are read past their end (`Conformance.OverstatedIsTaken`, and the exact condition in `Invariant.CompleteKeeps`). The model
  ends the run there as undefined.
- `TxState::handleCcaRequest` takes a parameter that the virtual function does not have, so it overrides nothing: a CCA
  request from a transmitting node is answered, and the throw in that handler is unreachable. The model answers it.
- The first assert of `readMsg` compares the length, still in network byte order, with the size of a pointer. On a
  little-endian host a complete message of 256, 512, ... or 1792 bytes stops the simulator, for example a data indication
  with a 222-byte frame. `NodeSimulator.DataIndRoundTrip` is an if-and-only-if with that guard.
- The checksum is converted with `htons` although it was computed from words in host order, so peers of different byte
  order agree exactly when its two bytes are equal (`NodeSimulator.FramePasses`).
- `generateChecksum` does not clear the field it is about to overwrite; a multicast is right only because `readMsg` cleared
  it (`Wire.SealedPasses` gives the exact condition, `Invariant.OutgoingIsFaithful` discharges it).
- Because the checksum is stored in network order, the sum of a finished message, field included, is all ones on a
  big-endian host, but on a little-endian one only if both checksum bytes are equal (`Wire.SealedSum`).
- `isAck` looks at the first byte of the message, the high byte of its length. A data indication is timed as an
  acknowledgement exactly for lengths of 512 to 767 bytes in every 2048 (`Frames.AckByLength`).
- `timespec_subtract` decides the sign after it has stored the result, so a result stored over an operand is reported with
  another sign (`Timespec.Subtract`). It can leave 1000000000 in `tv_nsec` and, for unnormalised operands, report a zero
  difference as negative (`Timespec.SubtractExact`, `Timespec.SignReported`).
- The 32-bit accumulator of `generate_checksum` holds every message of up to 65536 bytes on a big-endian host and 65537 on
  a little-endian one, and not longer ones (`Checksum.OverflowBound`).

## Model

| member | source | states |
|---|---|---|
| PhysicalMedia.PhysicalMedium.Run | src/sim/PhysicalMedium.cpp:499-555 | the medium thread, on objects, does exactly the run of the protocol on the given script, from the start value to a stop, a fault or the end of the script |
| PhysicalMedia.PhysicalMedium.OuterLoop | src/sim/PhysicalMedium.cpp:506-551 | the outer loop takes a sound medium to the value of the whole script, one poll per round |
| PhysicalMedia.PhysicalMedium.BusyLoop | src/sim/PhysicalMedium.cpp:522-545 | the inner loop is left only with an empty txList, at a stop, at a fault or with the script used up, and its state differs from the run's only by the end-of-pass step |
| PhysicalMedia.PhysicalMedium.IdlePass | src/sim/PhysicalMedium.cpp:507-517 | an idle poll, the change to busy and the answers leave a medium one end-of-pass step away from a whole round |
| PhysicalMedia.PhysicalMedium.BusyPass | src/sim/PhysicalMedium.cpp:524-544 | a busy poll, the answers, the check and the completions, in that order, make up a busy round |
| PhysicalMedia.PhysicalMedium.EndPass | src/sim/PhysicalMedium.cpp:546-553 | stop, or return to IDLE with the registration sweep, exactly when txList is empty |
| PhysicalMedia.PhysicalMedium.ProcessTxList | src/sim/PhysicalMedium.cpp:384-434 | erasing while iterating equals the protocol's sweep; none of its asserts fails and no state class throws |
| PhysicalMedia.PhysicalMedium.VisitTx | src/sim/PhysicalMedium.cpp:392-432 | one list element: completed and erased exactly when its timer has expired, else untouched, and the rest of the list keeps its order |
| PhysicalMedia.PhysicalMedium.EndTx | src/sim/PhysicalMedium.cpp:396-424 | the result is COLLIDED exactly for a marked packet, the frame of an OK packet is rssi and checksum written over the message, and the node ends Active with no timer and no packet |
| PhysicalMedia.PhysicalMedium.TxPacket | src/sim/PhysicalMedium.cpp:361-372 | the frame put on the multicast group |
| PhysicalMedia.PhysicalMedium.TxCollisionCheck | src/sim/PhysicalMedium.cpp:631-645 | walking the list marks exactly the packets of the listed nodes, on a powerline with more than one, and never meets a null packet |
| PhysicalMedia.PhysicalMedium.ProcessCcaList | src/sim/PhysicalMedium.cpp:266-279 | answers every request in order with the same verdict and leaves the list empty |
| PhysicalMedia.PhysicalMedium.ProcessPollerEvents | src/sim/PhysicalMedium.cpp:281-330 | handles the reported events in order up to the unblocker or a fault |
| PhysicalMedia.PhysicalMedium.Interval | src/sim/PhysicalMedium.cpp:441-483 | advances curTime by the wait and handles one batch of events |
| PhysicalMedia.PhysicalMedium.CheckNodeRegistrationTimeout | src/sim/PhysicalMedium.cpp:332-359 | the sweep of the registration list in any order of its keys destroys exactly the nodes of the protocol's sweep |
| PhysicalMedia.PhysicalMedium.EraseExpired | src/sim/PhysicalMedium.cpp:340-357 | erasing while iterating: the destroyed ids are exactly those whose timer has expired when read, and map and live nodes lose exactly these |
| PhysicalMedia.PhysicalMedium.CheckNode | src/sim/PhysicalMedium.cpp:342-356 | both asserts hold, the node is Registering, and it goes exactly if its timer has expired |
| PhysicalMedia.PhysicalMedium.AddNode | src/sim/PhysicalMedium.cpp:187-217 | a connection is the protocol's step on the objects, with a fresh node and no other object changed |
| Effects.Joining | src/sim/PhysicalMedium.cpp:187-217 | a connection of a node that is not there yet adds one Registering node with 120 s to confirm, its id in the registration list and a record of it, and changes nothing else |
| Effects.RunAccepts | src/sim/PhysicalMedium.cpp:187-217 | wherever in a run a connection is handled, the node is connected afterwards, beside every node before it, each as it was |
| Effects.JoinedIsConnected | src/sim/PhysicalMedium.cpp:213-216 | the record of a connection makes the node connected for the observer |
| Effects.NothingAfterHalt | src/sim/PhysicalMedium.cpp:281-330 | after a throw, a failed assert or the unblocker no further event of the poll is handled |
| Effects.NothingAfterUnblock | src/sim/PhysicalMedium.cpp:312-315 | the unblocker sets STOPPING and ends the poll, changing nothing else |
| Effects.UnblockStops | src/sim/PhysicalMedium.cpp:508-553 | after the unblocker the thread stops without an answer, a check, a Tx Done or a sweep |
| PhysicalMedia.PhysicalMedium.RegisterNode | src/sim/PhysicalMedium.cpp:572-585 | moves the id from the registration list to the node hash map |
| PhysicalMedia.PhysicalMedium.DeregisterNode | src/sim/PhysicalMedium.cpp:587-613 | erases the node from whichever map holds it; the assert on the second map cannot fail; undefined if a list still points to the node |
| PhysicalMedia.PhysicalMedium.HandleRegistrationConfirm | src/sim/DeviceNode.cpp:713-732 | Registering nodes become Active in the hash map with the timer stopped; the other states throw |
| PhysicalMedia.PhysicalMedium.HandleCcaRequest | src/sim/DeviceNode.cpp:752-768 | the list is extended first; only a Registering node throws |
| PhysicalMedia.PhysicalMedium.HandleDataIndication | src/sim/DeviceNode.cpp:770-784 | an Active node starts its timer, takes a fresh packet of its own and joins the list's end; other states throw |
| PhysicalMedia.PhysicalMedium.HandleDeregistrationRequest | src/sim/DeviceNode.cpp:734-750 | the confirm is sent before the node is deregistered |
| PhysicalMedia.PhysicalMedium.ReadMsg | src/sim/DeviceNode.cpp:534-634 | the bytes of a message change the objects as the parsed input changes their value |
| PhysicalMedia.PhysicalMedium.Destroy | src/sim/PhysicalMedium.cpp:89-121 | both maps end empty and every live node is deleted exactly once |
| DeviceNodes.DeviceNode.HandleTxTimerExpired | src/sim/DeviceNode.cpp:194-212 | result 0 or, if marked, 1; timer stopped; state Active |
| DeviceNodes.DeviceNode.BeginTx | src/sim/DeviceNode.cpp:244-257 | the timer runs out 4000000 ns from now, or one nanosecond for an acknowledgement, and the packet is the node's |
| DeviceNodes.DeviceNode.StartTxTimer | src/sim/DeviceNode.cpp:288-309 | seconds and nanoseconds of the armed value add up to ms milliseconds, and to one nanosecond for zero |
| DeviceNodes.ExpiresAfter | src/sim/DeviceNode.cpp:288-335 | a timer armed with ms is reported expired exactly from ms milliseconds later on, and with zero from the next nanosecond |
| DeviceNodes.DeviceNode.HasTxTimerExpired | src/sim/DeviceNode.cpp:320-335 | seconds and nanoseconds left are both zero exactly from the expiry instant on |
| DeviceNodes.DeviceNode.HasRegTimerExpired | src/sim/DeviceNode.cpp:320-335 | the same of the registration timer |
| DeviceNodes.NetSimPacket.PktbufSize | src/sim/DeviceNode.cpp:76-82 | the announced length in host order |
| DeviceNodes.DeviceNode.constructor | src/sim/DeviceNode.cpp:345-361 | a new node is Registering, its registration timer due 120000000000 ns from now, with no Tx timer and no packet |
| DeviceNodes.NetSimPacket.constructor | src/sim/DeviceNode.cpp:56-64 | the packet holds the message, uncollided, and names its sender |
| DeviceNodes.NetSimPacket.GenerateChecksum | src/sim/DeviceNode.cpp:84-91 | stores the checksum of the buffer as it is, field included |
| Runs.EveryRun | src/sim/PhysicalMedium.cpp:499-555 | every run from a sound medium has a lawful log, meets a modelled fault exactly if some event was illegitimate or a frame that announced more than it held went out, and between rounds satisfies the global invariant with IDLE exactly on an empty txList and nobody waiting for a CCA answer |
| Runs.EventKeeps | src/sim/PhysicalMedium.cpp:281-330 | one event keeps the invariant if it is legitimate and faults otherwise; polling never takes a node off txList |
| Runs.EventsKeep | src/sim/PhysicalMedium.cpp:289-329 | the same of a whole batch |
| Runs.BusyRoundKeeps | src/sim/PhysicalMedium.cpp:522-550 | a busy round keeps the invariant exactly when its poll was legitimate and no frame overstated its length |
| Runs.IdleRoundKeeps | src/sim/PhysicalMedium.cpp:507-550 | an idle round keeps the invariant exactly when its poll was legitimate |
| Guarantees.ConformingRun | src/sim/PhysicalMedium.cpp:499-555 | with legitimate events and messages that hold what they announce, any number of nodes and any script: no modelled fault; counters, lists, maps and both timers of every node agree with what was sent and received |
| Guarantees.InvBalances | src/sim/PhysicalMedium.cpp:411-422 | ok + collided equals Tx Dones sent, ok equals multicasts, failed is 0, live packets equal the length of txList, CCA requests equal confirms plus waiting, accepted equals registering plus registered plus destroyed; Tx iff listed iff timer iff packet |
| Guarantees.RunCollisions | src/sim/PhysicalMedium.cpp:631-645 | in any run, whatever the clients do, COLLIDED exactly when, on a powerline, another node was in the air during the stay, and never before the packet's time |
| Guarantees.RunMulticasts | src/sim/PhysicalMedium.cpp:407-411 | in any run a Tx Done of OK, and no other, is followed by the faithful multicast of its message, alone in the air on a powerline |
| Guarantees.RunAnswers | src/sim/PhysicalMedium.cpp:266-279 | in any run a confirm says clear exactly when nobody is in the air, confirms come in request order, and every request is answered in the round that brings it |
| Guarantees.RunTimeouts | src/sim/PhysicalMedium.cpp:332-359 | in any run a node that times out joined at least 120 s before its timer was read and has not confirmed since |
| Guarantees.RunSweeps | src/sim/PhysicalMedium.cpp:332-359 | in any run a sweep reads the timer of every registering node and destroys it exactly if 120 s or more have passed since it joined |
| Guarantees.IdleAfterSweep | src/sim/PhysicalMedium.cpp:546-550 | every sound round that leaves the medium idle ends with a sweep of all registering nodes, read inside its window |
| Conformance.WellPlayedRun | test/nodesim/common.cpp:127-259 | any number of clients that behave as they see it, over channels that keep order, never drive the medium to a modelled fault, and its books balance |
| Conformance.WellPlayedConforms | test/nodesim/common.cpp:127-259 | from any sound medium, scripts played by such clients are legitimate event by event |
| Conformance.ServeKeeps | src/sim/PhysicalMedium.cpp:281-330 | each event of such a script is legitimate when it is handled, and the books of clients, channels and simulator still agree |
| Conformance.Delivered | src/sim/DeviceNode.cpp:534-634 | readMsg makes of the bytes of a client's message exactly that message, whatever follows it in the stream |
| Conformance.SameId | test/nodesim/common.cpp:229-232 | whatever a client has heard on its connection, it uses the id of the registration request |
| Conformance.Ledger | src/sim/PhysicalMedium.cpp:219-235 | per connection: requests read are confirms sent plus those waiting, data indications read are Tx Dones sent plus the one in the air |
| Conformance.DataHolds | test/nodesim/common.cpp:175-205 | a packet built by the client announces exactly the payload it carries |
| Conformance.OverstatedIsTaken | src/sim/DeviceNode.cpp:616-621 | 34 bytes that announce a 65535-byte payload are accepted as a data indication |
| Traces.CollidedExactlyWhenOverlapped | src/sim/PhysicalMedium.cpp:522-545 | COLLIDED iff the air was shared at some instant iff some check of the stay saw another node; every stay has a check; wireless is always OK |
| Traces.OverlappingBothCollide | src/sim/PhysicalMedium.cpp:631-645 | any two powerline packets that ever overlap both end COLLIDED |
| Traces.MulticastExactlyAfterOk | src/sim/PhysicalMedium.cpp:407-411 | the act after a Tx Done is a multicast exactly if it said OK, of that message, faithful, and on a powerline alone in the air throughout |
| Traces.ClearExactlyWhenSilent | src/sim/PhysicalMedium.cpp:277-277 | a CCA confirm says clear exactly when nobody is in the air at that moment |
| Traces.AnsweredInOrder | src/sim/PhysicalMedium.cpp:219-223 | the ids asked are the ids told followed by those waiting |
| Traces.ExactlyOnce | src/sim/PhysicalMedium.cpp:384-434 | per node: begun minus ended is 1 in the air and 0 otherwise; joined minus destroyed is 1 while connected and 0 otherwise |
| Traces.NoTxDoneBeforeItsTime | src/sim/DeviceNode.cpp:244-257 | a Tx Done comes at least 4 ms after its data indication was taken, 1 ns for an acknowledgement |
| Traces.NoTimeoutBeforeItsTime | src/sim/DeviceNode.cpp:117-122 | a node that times out joined at least 120 s before its timer was read, without confirming in between |
| Traces.TimeoutExactly | src/sim/PhysicalMedium.cpp:332-359 | a sweep reads every registering node and takes it exactly 120 s or more after it joined |
| Traces.HonestLog | src/sim/PhysicalMedium.cpp:361-382 | if every message holds what it announces, so does every multicast frame |
| Traces.LivePackets | src/sim/PhysicalMedium.cpp:384-434 | packets begun minus packets ended is the number in the air |
| Traces.Totals | src/sim/PhysicalMedium.cpp:411-422 | Tx Dones, OKs and multicasts counted over the whole log |
| Traces.Ownership | src/sim/PhysicalMedium.cpp:572-613 | joined equals registering plus registered plus destroyed |
| Traces.ConfirmedNeverTimesOut | src/sim/DeviceNode.cpp:236-242 | a timeout destroys a confirmed id only if that id has joined again since |
| Invariant.AcceptKeeps | src/sim/PhysicalMedium.cpp:187-217 | a connection keeps the global invariant |
| Invariant.ConfirmKeeps | src/sim/DeviceNode.cpp:236-242 | a registration confirm keeps the invariant from a Registering node and throws from any other |
| Invariant.ReleaseKeeps | src/sim/PhysicalMedium.cpp:587-613 | a deregistration keeps the invariant exactly when neither list points to the node |
| Invariant.AskCcaKeeps | src/sim/DeviceNode.cpp:752-768 | a CCA request keeps the invariant from a registered node, transmitting or not, and throws from a Registering one |
| Invariant.TransmitKeeps | src/sim/DeviceNode.cpp:244-257 | a data indication keeps the invariant from a registered node off the air, and otherwise throws; the timer assert never fails |
| Invariant.CcaKeeps | src/sim/PhysicalMedium.cpp:266-279 | answering keeps the invariant, given that the state is IDLE exactly on an empty txList |
| Invariant.CheckKeeps | src/sim/PhysicalMedium.cpp:534-538 | after the check every packet has met one, and each that ever overlapped has been seen overlapping |
| Invariant.CompleteKeeps | src/sim/PhysicalMedium.cpp:361-428 | a completion removes exactly that node, and keeps the invariant exactly if the packet collided or holds the payload it announces |
| Invariant.VisitKeeps | src/sim/PhysicalMedium.cpp:392-432 | timer assert, packet assert and state dispatch succeed; only an overstated psdu_len can go wrong, and does; the other nodes are untouched |
| Invariant.SweepRegsKeeps | src/sim/PhysicalMedium.cpp:332-359 | exactly the Registering nodes with an expired timer go, all others are kept as they were, and nothing throws |
| Invariant.OutgoingIsFaithful | src/sim/PhysicalMedium.cpp:361-372 | a multicast frame passes the receiver's check and differs from the message only in rssi and checksum |
| Sweeps.ProcessTxIsFilter | src/sim/PhysicalMedium.cpp:384-434 | the sweep is sound exactly if no due, uncollided packet overstates its length; then the list keeps exactly the unexpired nodes in order; the log gains one Tx Done per expired node in list order, with a multicast exactly for the uncollided |
| Busy.BusyRoundLightens | src/sim/PhysicalMedium.cpp:522-545 | without new transmissions and with an advancing clock, remaining ticks plus one, summed over the list, fall strictly each round |
| Busy.BusyPeriodEnds | src/sim/PhysicalMedium.cpp:522-550 | within as many rounds as that sum the medium is IDLE with an empty txList, or STOPPED; IDLE if nothing unblocks it |
| Clock.RunFromStart | src/sim/PhysicalMedium.cpp:441-452 | every run from the start: lawful log, sound iff conforming without an overstated frame, and curTime is the start plus one second per idle poll and one millisecond per busy poll |
| Clock.RestOfRound | src/sim/PhysicalMedium.cpp:515-550 | after the poll a round only answers, checks, ends packets and times nodes out |
| Clock.OnePollPerRound | src/sim/PhysicalMedium.cpp:507-526 | a round polls once, before anything else, for 1000 ms when idle and 1 ms when busy |
| Clock.OnlyTwoWaits | src/sim/PhysicalMedium.cpp:508-526 | the waits of a lawful log are only those two |
| Checksum.GenerateChecksum | src/sim/DeviceNode.cpp:22-38 | the deferred-carry loop in a 32-bit int computes the checksum of section 1 of RFC 1071: the complement of the word-by-word end-around-carry sum, so that both add up to all ones |
| Checksum.Complement | src/sim/DeviceNode.cpp:35-37 | folding and complementing a plain sum gives what adds up to all ones with the end-around sum |
| Checksum.Fold | src/sim/DeviceNode.cpp:35-36 | the two folding statements reach the representative modulo 65535 |
| Checksum.TwoFoldsSuffice | src/sim/DeviceNode.cpp:35-36 | two folds are enough for every non-negative int, one exactly when it does not carry again |
| Checksum.OnesSumIsResidue | src/sim/DeviceNode.cpp:16-38 | end-around-carry addition, word by word, is the plain sum reduced modulo 65535 at the end |
| Checksum.OverflowBound | src/sim/DeviceNode.cpp:25-33 | no message of a given length can overflow the accumulator exactly up to the stated length |
| Checksum.EqualChecksums | src/sim/DeviceNode.cpp:22-38 | equal checksums exactly for sums congruent modulo 65535 and both zero or both nonzero |
| Checksum.PaddedWithZero | src/sim/DeviceNode.cpp:32-33 | an odd last byte counts as if a zero byte followed it |
| Checksum.PermutedWords | src/sim/DeviceNode.cpp:28-31 | permuting 16-bit words leaves the checksum alone |
| Checksum.ByteOrderIndependence | src/sim/DeviceNode.cpp:26-33 | hosts of different byte order compute byte-swapped checksums, odd lengths included |
| Checksum.SwappedWords | src/sim/DeviceNode.cpp:26-33 | swapping the bytes of every word swaps those of the checksum |
| Wire.SealedPasses | src/sim/DeviceNode.cpp:84-91 | storing a checksum without clearing the field passes the zero-and-recompute check exactly for the stated field values |
| Wire.SumsToAllOnes | src/sim/DeviceNode.cpp:84-91 | with the field clear, the checksum put in its place makes the end-around sum of the whole message 0xffff |
| Wire.SealedSum | src/sim/DeviceNode.cpp:89-90 | stored in network order it does so exactly on a big-endian host or with both bytes equal |
| Wire.OneWordError | src/sim/DeviceNode.cpp:22-38 | messages that differ in one word have the same checksum exactly for 0x0000 against 0xffff with the rest not all zero |
| Wire.OneWordErrorPasses | src/sim/DeviceNode.cpp:572-582 | a frame that passes still passes with one word outside the field changed exactly for that change |
| Wire.SealedShape | src/sim/DeviceNode.cpp:84-91 | only the two checksum bytes change, and they read back as the checksum |
| Frames.ReadMsgDecides | src/sim/DeviceNode.cpp:534-634 | every stream of bytes decided: which asserts fail, what is dropped for its checksum, version or type, what is read past its end, and the four inputs that reach a handler |
| Frames.CorruptedIsDropped | src/sim/DeviceNode.cpp:572-582 | a message with one word changed after its length field is dropped, but for 0x0000 against 0xffff outside the checksum field |
| Frames.CorruptedIsIgnored | src/sim/DeviceNode.cpp:572-582 | such a message leaves the medium exactly as it was |
| Frames.MulticastOfFrame | src/sim/PhysicalMedium.cpp:361-372 | the multicast of a data indication is that data indication with an rssi of 127 and every other field as sent |
| Frames.OverrunExactly | src/sim/PhysicalMedium.cpp:374-381 | the dump leaves the packet exactly if it announces more payload than it carries |
| Frames.AckByLength | src/sim/Simulator.hpp:42-47 | a data indication is taken for an acknowledgement exactly for lengths of 512 to 767 in every 2048 |
| Messages.ReceiveMsg | src/sim/DeviceNode.cpp:534-634 | readMsg on the waiting bytes: assert on two bytes of length, length assert in host order, conversion, complete message |
| Messages.CheckMsg | src/sim/DeviceNode.cpp:571-628 | checksum, node id assert, version and switch, in that order |
| Messages.ClearChecksum | src/sim/DeviceNode.cpp:574-576 | clears the field and rewrites the length in place, changing nothing else |
| Messages.BuildFrame | src/sim/DeviceNode.cpp:435-446 | field-by-field construction in the host's representation yields the frame of the wire format |
| NodeSimulator.NodeSim.SendRegCon | test/nodesim/common.cpp:127-144 | the 82 bytes of a registration confirm, type 1, naming linux and 4.1.0 rc4 |
| NodeSimulator.NodeSim.SendDeregReq | test/nodesim/common.cpp:146-158 | the 18 bytes of a deregistration request, type 2 |
| NodeSimulator.NodeSim.SendCcaReq | test/nodesim/common.cpp:160-173 | the 18 bytes of a CCA request, type 4 |
| NodeSimulator.NodeSim.SendTxDataInd | test/nodesim/common.cpp:175-205 | the bytes of a data indication of any psdu length, length field wrap and negated power included, without overflow of the checksum |
| NodeSimulator.NodeSim.ReadMsg | test/nodesim/common.cpp:207-259 | on what one recv takes, with the field zeroed in place: the assert fails exactly on a bad checksum, a type no server sends is thrown exactly after a good one, and only a registration request changes the node id |
| NodeSimulator.SendRegistrationRequest | src/sim/DeviceNode.cpp:428-455 | the 18 bytes of a registration request, type 0 |
| NodeSimulator.SendDeregistrationConfirm | src/sim/DeviceNode.cpp:457-479 | the 18 bytes of a deregistration confirm, type 3 |
| NodeSimulator.SendCcaConfirm | src/sim/DeviceNode.cpp:481-505 | the 19 bytes of a CCA confirm, type 5 |
| NodeSimulator.SendTxDoneIndication | src/sim/DeviceNode.cpp:507-532 | the 19 bytes of a Tx Done, type 7 |
| NodeSimulator.FrameFields | src/x6losim_interface.h:45-57 | every header field and the payload read back from a frame |
| NodeSimulator.FrameStart | src/x6losim_interface.h:45-57 | the length and type bytes of a frame |
| NodeSimulator.DataIndLayout | src/x6losim_interface.h:138-151 | the offset of every field of a data indication |
| NodeSimulator.FramePasses | src/sim/DeviceNode.cpp:572-582 | a frame passes on a host of the same byte order, and on the other exactly when both checksum bytes are equal |
| NodeSimulator.ServerReads | src/sim/DeviceNode.cpp:534-634 | a frame of readable length reaches the node id assert, and with the right id is dispatched with its type and payload |
| NodeSimulator.RegConRoundTrip | src/sim/DeviceNode.cpp:601-615 | the three fixed-size client messages are understood, payload included, on every host |
| NodeSimulator.DataIndRoundTrip | src/sim/DeviceNode.cpp:616-621 | a data indication is understood exactly when its length is readable |
| NodeSimulator.UnreadableLength | src/sim/DeviceNode.cpp:560-562 | a complete message of any other length stops the simulator at the length assert; 222-byte frames are such |
| NodeSimulator.ClientUnderstands | test/nodesim/common.cpp:222-253 | every message of the simulator passes the client's check and is understood |
| NodeSimulator.Handshake | src/sim/DeviceNode.cpp:586-588 | the id taken from the registration request is the only one the simulator's assert lets through |
| Timespec.Timespec.AddMilliseconds | src/utils/time.cpp:93-102 | the in-place addition in unsigned 64-bit arithmetic |
| Timespec.AddMsExact | src/utils/time.cpp:93-102 | exact and normalised exactly below the wrap of the nanosecond sum |
| Timespec.Subtract | src/utils/time.cpp:70-91 | the result, the in-place rewrite of y and the reported sign, for operands that may be stored over, with every int product in range |
| Timespec.SubtractExact | src/utils/time.cpp:70-91 | exact for all operands; y keeps its total; the exact range of the nanoseconds |
| Timespec.AddThenSubtract | src/utils/time.cpp:70-102 | subtract(add_ms(x, ms), x) is exactly ms, normalised |
| Timespec.CompareAgrees | src/utils/time.cpp:48-63 | orders totals, is antisymmetric, and is -1 exactly when the subtraction reports a negative difference |
| Timespec.SignReported | src/utils/time.cpp:89-90 | for all operands, when the reported sign is that of the difference |
| Hexdump.LogHexdump | src/log/log.cpp:59-138 | the rows of the dump, or nothing below the log level; no write leaves the 81- and 17-character buffers |
| Hexdump.PrintRows | src/log/log.cpp:88-132 | lead-in, body and lead-out over the two reused buffers produce ceil((start % 16 + len) / 16) rows |
| Hexdump.RowParses | src/log/log.cpp:94-118 | column c of a row is what memory holds at the row's address plus c |
| Hexdump.RowShows | src/log/log.cpp:75-132 | row by row and column by column, the address, the two upper-case digits, the character of a printable byte, a dot for any other, and the filler outside the dump; exactly the rows that touch it |
| Hexdump.DumpRoundTrip | src/log/log.cpp:59-138 | a dump reads back as exactly the dumped bytes at their addresses, in order, for every start and length |

## Left out

- Sockets, epoll, POSIX timers, pcap, threads and signals: polling is a script of events, a timer is the instant from which
  `timer_gettime` reports nothing left, a send is an entry in the log. `EPOLL_MAX_EVENTS` does not bound a batch.
- Partial `recv`, `EAGAIN` and the errno tests of `readMsg`: a message is in the socket whole, or the read is Undefined;
  less than a length fails the assert.
- Messages shorter than the structure their handler casts them to, and frames shorter than their `psdu_len`: Undefined, and
  the run ends. Undefined behaviour of other kinds is not part of the model; log output may still read past a registration
  string without a terminator.
- Deregistering or closing while the node is on `txList` or `ccaList`: the source deletes the node and goes on with a
  dangling pointer; here the run ends as Undefined. Conforming clients do not do it.
- The middle of `addNode`: joining epoll and entering the registration list are one step, and the accept thread is
  interleaved only between the events of a poll.
- `PhysicalMedium::stop` from another thread, whose STOPPING the medium thread can overwrite: stopping is the unblocker event.
- Nodes that connect before the medium thread has started.
- An event that epoll reported in the same batch for a node deleted earlier in that batch is skipped; the source would use
  the deleted pointer.
- PhysicalMedia.PhysicalMedium.Run: the script stands for the polls, so the method returns when the script is used up; the
  source's thread would poll again.
- PhysicalMedia.PhysicalMedium.TxCollisionCheck: one method with the kind of the medium as a field instead of two subclasses.
- The `int` counters of the statistics are unbounded, and the branch for `TX_DONE_FAILURE`, which nothing produces, is left out.
- Timespec.Timespec.AddMilliseconds: `tv_sec` is unbounded; the wrap of the nanosecond sum is modelled.
- Timespec.Subtract: operands whose nanoseconds differ so much that 1000000000 * nsec leaves an int are excluded, as undefined.
- NodeSimulator.NodeSim.ReadMsg: fewer than 18 received bytes are Undefined; the source reads what its buffer held before.
- Conformance.WellPlayedRun: clients have the simulator's byte order, and avoid the lengths its assert rejects. What clients
  do during the timer sweeps of a round counts as done at the start of the next poll, which is when it can be seen.
- Hexdump.LogHexdump: addresses do not wrap at the top of memory.
- What 802.15.4 frame type `isAck` was meant to detect: nothing is claimed of the type bits of the frame itself.
- `removeNodeFromTxList`, which nothing calls and whose loop does not advance on a mismatch.
- Node ids are unique among live nodes and may be used again after a node is destroyed, like the addresses they stand for.
- The strings a client registers with (`os`, `os_version`) are parsed but not kept, and log messages are not modelled.
- src/x6losim.c, src/main.cpp, the accept loop and the UML files are not part of this model.
