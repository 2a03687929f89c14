# Ring leader election simulator — a Dafny model

This project models the core of a Java simulator of the Chang–Roberts leader election on
a ring of nodes that proceeds in synchronous rounds:

* A **node** holds an id, a participant flag, a leader flag and a leader id. It also holds its
  ring pointers (`next`, `previous`), a list of neighbour ids, and FIFO queues of incoming
  and outgoing wire messages.
* The **wire messages** are strings `"<TAG> <id>"`, where the tag is `ELECTION`, `LEADER`
  or `NEIGHBOUR-FAILURE`.
* The **network** runs a loop of rounds. Each round:
  1. advances the round counter;
  2. collects (`collectMessages`):
     * injects the election starts scheduled for the round;
     * takes the head of every non-empty outgoing queue;
  3. takes the stop test;
  4. delivers (`deliverMessages`): each sender's message is removed from its outgoing queue
     and appended to the incoming queue of the sender's `next`;
  5. lets every node's worker process what it received, in arrival order, and then clear
     its incoming queue.
* **`parseFile`** builds the ring from the records of the input description. The main ids
  of the node lines are linked in the order they appear, and the last one is linked back to
  the first.

The model has six modules:

| file | module | what it holds |
|---|---|---|
| `codec.dfy` | `Codec` | the messages' `toString` and `NodeMessageParser.parse`, on `string` |
| `protocol.dfy` | `Protocol` | the node's transition functions on values: `Process`, `Send`, `Batch` |
| `nodes.dfy` | `Nodes` | classes `Node` and `Logger`; the message-handling methods are proved to follow `Protocol`, the setters, `FindNeighbour` and the `Logger` methods are specified directly |
| `rounds.dfy` | `Rounds` | the network on values: `Collect`, `Deliver`, `RunAll`, `Round` and the round invariants |
| `topology.dfy` | `Topology` | `parseFile` on already tokenised records: `ReadAll`, `Load` |
| `simulation.dfy` | `Simulation` | class `Network`; the methods that make up a round or `parseFile` are proved to follow `Rounds` and `Topology`, while `AddMessage`, `NextOf` and `PutNode` are specified directly on the fields |

In `Rounds`, nodes live in an arena `map<nat, NodeState>` keyed by id. Ring pointers and
neighbours are ids. The `Network` class keeps the `Node` objects in a `map<nat, Node>`, and
its `Arena()` reads their fields back as that arena.

Several properties are proved over the whole run:

* a round that starts at the top of the loop ends there (`Ready`): keyed by id, ring-linked,
  carrying only ELECTION and LEADER messages, nothing collected, nothing unprocessed;
* the ring pointers read from the description never change;
* the loop stops exactly when no message is queued and no election start is pending, and it
  then leaves the network quiescent.
* a round fails only where collection dereferences `null`. So when every id on an ELECT
  line is the main id of a node line and the main ids are distinct, no round fails
  (`RoundSucceeds`, `LoadElectsNodes`).

The code departs from the textbook form of the protocol it implements (election messages
that carry a starter id, a failure phase in every round). The model follows the code:

* Messages carry one id; there is no starter id.
* FAIL records are stored but never used. `informNodeFailure` is empty
  (`Network.java:207-211`), so there is no failure phase in the round. Failure handling
  exists only on the node side.
* The stop test looks only at the collected messages and the election schedule. It is
  taken after collection, and that round's delivery still happens.
* A node's neighbours are a list: duplicates are kept, and `remove` drops the first
  occurrence.
* `parseFile` never sets `previous` pointers.
* `collectMessages` (`Network.java:168`) calls a two-argument `ElectionMessage`
  constructor that does not exist (`Node.java:214-220`). It is modelled as appending
  `ELECTION <listed id>` to the listed node's outgoing queue. On a network keyed by id
  (`Keyed`), that is what `startElection` (`Node.java:185-187`) does.

An election start listed for a round that is never reached is never removed, so the loop
never stops. This includes a round at or below the current one, such as round 0
(`Rounds.StaleElectionBlocksEnd`).

## Model

| member | source | states |
|---|---|---|
| `Codec.NatToString` | ds-assignment/src/com/enthusiast94/ds/main/Node.java:227-229 | the decimal rendering of an id is a non-empty digit string with no leading zero |
| `Codec.NatRoundTrip` | ds-assignment/src/com/enthusiast94/ds/main/Node.java:274 | reading back the rendering of an id (`Integer.valueOf`) gives the id |
| `Codec.ParseNat` | ds-assignment/src/com/enthusiast94/ds/main/Node.java:274 | definition of `Integer.valueOf` on a digit string; properties in `Codec.NatRoundTrip` |
| `Codec.Parse` | ds-assignment/src/com/enthusiast94/ds/main/Node.java:269-281 | when the parse yields a message, the first whitespace-delimited token is that message's tag |
| `Codec.ParseEncode` | ds-assignment/src/com/enthusiast94/ds/main/Node.java:269-281 | parsing the `toString` of any ELECTION, LEADER or NEIGHBOUR-FAILURE message gives back the same kind with the same id |
| `Codec.Encode` | ds-assignment/src/com/enthusiast94/ds/main/Node.java:226-265 | definition of the three `toString` methods; properties in `Codec.ParseEncode` |
| `Codec.UnknownTagUnrecognised` | ds-assignment/src/com/enthusiast94/ds/main/Node.java:279-280 | a string whose first token is none of the three tags parses to `null` |
| `Codec.EmptyTagUnrecognised` | ds-assignment/src/com/enthusiast94/ds/main/Node.java:269-280 | a string whose first token is empty (the empty string, or leading whitespace before a non-blank rest) also parses to `null` |
| `Protocol.RemoveFirstMultiset` | ds-assignment/src/com/enthusiast94/ds/main/Node.java:157 | `List.remove` takes away exactly one copy of the element if there is one, and nothing otherwise |
| `Protocol.RemoveFirstAt` | ds-assignment/src/com/enthusiast94/ds/main/Node.java:182 | `List.remove` drops the first occurrence, keeping everything before and after it |
| `Protocol.Repair` | ds-assignment/src/com/enthusiast94/ds/main/Node.java:120-162 | a successful repair keeps the id and the incoming queue, and queues `ELECTION <own id>` exactly when the failed node was the leader |
| `Protocol.OnElection` | ds-assignment/src/com/enthusiast94/ds/main/Node.java:85-104 | an ELECTION message never throws, keeps id and incoming queue, and only appends to the outgoing queue |
| `Protocol.OnLeader` | ds-assignment/src/com/enthusiast94/ds/main/Node.java:105-119 | a LEADER message never throws, keeps id and incoming queue, and only appends to the outgoing queue |
| `Protocol.Process` | ds-assignment/src/com/enthusiast94/ds/main/Node.java:80-166 | processing a message never touches the id or the incoming queue and never removes an outgoing message |
| `Protocol.ProcessAll` | ds-assignment/src/com/enthusiast94/ds/main/Node.java:197-199 | processing a batch of messages keeps id and incoming queue and only appends to the outgoing queue |
| `Protocol.ProcessAllStep` | ds-assignment/src/com/enthusiast94/ds/main/Node.java:197-199 | processing one more message extends the run over the prefix by exactly that message's step |
| `Protocol.ProcessAllCrashSticks` | ds-assignment/src/com/enthusiast94/ds/main/Node.java:197-199 | once a message throws, the rest of the batch is not processed and the batch throws |
| `Protocol.LeaderLineIsEncoding` | ds-assignment/src/com/enthusiast94/ds/main/Node.java:97-100 | the line logged by a new leader is the wire form of its LEADER message |
| `Protocol.ElectionJoins` | ds-assignment/src/com/enthusiast94/ds/main/Node.java:88-92 | a non-participant receiving `ELECTION c` appends exactly `ELECTION max(c, id)`, becomes a participant, and changes nothing else, in particular not the leader fields |
| `Protocol.ElectionWins` | ds-assignment/src/com/enthusiast94/ds/main/Node.java:94-100 | a participant receiving its own id sets `isLeader` and `leaderId = id`, leaves the election, appends `LEADER id` and logs `LEADER id` once |
| `Protocol.ElectionFiltered` | ds-assignment/src/com/enthusiast94/ds/main/Node.java:101-103 | a participant forwards `ELECTION c` unchanged when `c > id` and absorbs it when `c < id` |
| `Protocol.EmittedElectionsDominate` | ds-assignment/src/com/enthusiast94/ds/main/Node.java:80-166 | whatever a node receives, every ELECTION message it queues carries an id at least its own |
| `Protocol.ElectionEmits` | ds-assignment/src/com/enthusiast94/ds/main/Node.java:85-104 | every message queued on an ELECTION carries an id at least the node's own, when it is an ELECTION |
| `Protocol.LeaderRecorded` | ds-assignment/src/com/enthusiast94/ds/main/Node.java:105-119 | on `LEADER l` a node records `l`, leaves the election and forwards the message unchanged iff `l` is not its id |
| `Protocol.LogsOnlyOnWin` | ds-assignment/src/com/enthusiast94/ds/main/Node.java:94-100 | a message writes to the log iff it is a participant's own-id ELECTION, and then writes exactly `LEADER id` and makes the node leader |
| `Protocol.UnknownTagIsFatal` | ds-assignment/src/com/enthusiast94/ds/main/Node.java:163-164 | a message with an unknown leading token throws "invalid message type" |
| `Protocol.RepairFaults` | ds-assignment/src/com/enthusiast94/ds/main/Node.java:124-137 | a failure notice about a non-neighbour leaves the search result `null`, which the repair then dereferences (a null dereference, or an assertion error when the JVM checks assertions); one about a neighbour whose `previous` or `next` is unset throws a null dereference; either way before anything changes |
| `Protocol.RepairBridges` | ds-assignment/src/com/enthusiast94/ds/main/Node.java:137-162 | ring repair: the last survivor clears both pointers, F's predecessor takes F's next, F's successor takes F's previous (each added to the neighbours if absent), the first F leaves the neighbours, a failed leader triggers `startElection`; nothing else changes |
| `Protocol.RepairNeighbours` | ds-assignment/src/com/enthusiast94/ds/main/Node.java:143-157 | after a repair the new ring neighbour is a neighbour, and F is gone when it was listed once |
| `Protocol.SendHead` | ds-assignment/src/com/enthusiast94/ds/main/Node.java:176-182 | `sendMsg` of the outgoing head removes exactly that head and sets participant iff it is an ELECTION message |
| `Protocol.Send` | ds-assignment/src/com/enthusiast94/ds/main/Node.java:168-183 | definition of `sendMsg` on values; properties in `Protocol.SendHead` |
| `Protocol.ProcessToken` | ds-assignment/src/com/enthusiast94/ds/main/Node.java:85-119 | an ELECTION or LEADER message never throws, never touches the ring, and queues only ELECTION and LEADER messages |
| `Protocol.ProcessAllTokens` | ds-assignment/src/com/enthusiast94/ds/main/Node.java:197-199 | a batch of ELECTION and LEADER messages never throws and keeps the ring |
| `Protocol.BatchTokens` | ds-assignment/src/com/enthusiast94/ds/main/Node.java:196-203 | a worker pass over ELECTION and LEADER messages succeeds, keeps the ring and clears the incoming queue |
| `Protocol.BatchIdle` | ds-assignment/src/com/enthusiast94/ds/main/Node.java:196-203 | a worker pass over an empty incoming queue changes nothing |
| `Protocol.Batch` | ds-assignment/src/com/enthusiast94/ds/main/Node.java:196-203 | definition of one worker pass on values; properties in `Protocol.BatchTokens` and `Protocol.BatchIdle` |
| `Protocol.StartElection` | ds-assignment/src/com/enthusiast94/ds/main/Node.java:185-187 | definition of `startElection` on values; properties in `Protocol.RepairBridges` and `Nodes.Node.StartElection` |
| `Protocol.Receive` | ds-assignment/src/com/enthusiast94/ds/main/Node.java:72-78 | definition of `receiveMsg` on values; properties in `Rounds.ReceiveAllSpec` and `Nodes.Node.ReceiveMsg` |
| `Nodes.Logger.constructor` | ds-assignment/src/com/enthusiast94/ds/main/Logger.java:16-19 | a new log buffer is empty |
| `Nodes.Logger.AddMessage` | ds-assignment/src/com/enthusiast94/ds/main/Logger.java:33-35 | `addMessage` appends exactly one line |
| `Nodes.Node.constructor` | ds-assignment/src/com/enthusiast94/ds/main/Node.java:23-30 | a new node is not a participant or leader, has no pointers, no neighbours, empty queues and no leader id (`-1`) |
| `Nodes.Node.SetNext` | ds-assignment/src/com/enthusiast94/ds/main/Node.java:44-46 | only `next` changes |
| `Nodes.Node.AddNeighbour` | ds-assignment/src/com/enthusiast94/ds/main/Node.java:68-70 | the neighbour is appended and nothing else changes |
| `Nodes.Node.ReceiveMsg` | ds-assignment/src/com/enthusiast94/ds/main/Node.java:72-78 | the message is appended to the incoming queue and nothing else changes |
| `Nodes.Node.StartElection` | ds-assignment/src/com/enthusiast94/ds/main/Node.java:185-187 | `ELECTION <id>` is appended to the outgoing queue and nothing else changes |
| `Nodes.Node.InformNeighbourFailure` | ds-assignment/src/com/enthusiast94/ds/main/Node.java:189-191 | `NEIGHBOUR-FAILURE <f>` is appended to the incoming queue and nothing else changes |
| `Nodes.Node.FindNeighbour` | ds-assignment/src/com/enthusiast94/ds/main/Node.java:124-130 | the search finds the first position holding the failed id, or reports that it is absent |
| `Nodes.Node.ProcessIncomingMessage` | ds-assignment/src/com/enthusiast94/ds/main/Node.java:80-166 | the fields and the log change exactly as `Process` says; on an exception nothing changes |
| `Nodes.Node.SendMsg` | ds-assignment/src/com/enthusiast94/ds/main/Node.java:168-183 | the fields change exactly as `Send` says; a message that does not parse changes nothing |
| `Nodes.Node.RunBatch` | ds-assignment/src/com/enthusiast94/ds/main/Node.java:196-203 | one worker pass processes the buffered messages in order and clears them, as `Batch` says, appending the lines it logs |
| `Rounds.InjectDefined` | ds-assignment/src/com/enthusiast94/ds/main/Network.java:167-169 | election injection succeeds iff every listed id is a node, and keeps the node set |
| `Rounds.InjectCounts` | ds-assignment/src/com/enthusiast94/ds/main/Network.java:167-169 | each node gains one `ELECTION <its id>` per time it is listed, and nothing else changes |
| `Rounds.Inject` | ds-assignment/src/com/enthusiast94/ds/main/Network.java:167-169 | definition of the election starts of a round; properties in `Rounds.InjectDefined` and `Rounds.InjectCounts` |
| `Rounds.CollectElections` | ds-assignment/src/com/enthusiast94/ds/main/Network.java:163-172 | collection injects exactly this round's election starts, changing each node only by appending them to its outgoing queue (participant and leader fields, incoming queue and ring untouched), removes this round's entry and leaves every other round's entry as it was |
| `Rounds.CollectHeads` | ds-assignment/src/com/enthusiast94/ds/main/Network.java:174-180 | after collection the collected map holds an entry, equal to the head, for each node with a non-empty outgoing queue, and otherwise only what it held before; no outgoing queue loses a message; incoming queues and ring are untouched |
| `Rounds.Collect` | ds-assignment/src/com/enthusiast94/ds/main/Network.java:162-181 | definition of `collectMessages`; properties in `Rounds.CollectElections` and `Rounds.CollectHeads` |
| `Rounds.CollectOnlyInjects` | ds-assignment/src/com/enthusiast94/ds/main/Network.java:162-181 | with no election start for the round, collection changes no node |
| `Rounds.CollectReady` | ds-assignment/src/com/enthusiast94/ds/main/Network.java:162-181 | from the top of the loop, collection keeps the network keyed, ring-linked and carrying only ELECTION and LEADER messages, collects exactly the outgoing heads, keeps the ring and the round, and leaves delivery nothing that throws |
| `Rounds.HeadsReady` | ds-assignment/src/com/enthusiast94/ds/main/Network.java:174-180 | heads collected on a linked ring of ELECTION and LEADER queues can be delivered |
| `Rounds.SendAllSpec` | ds-assignment/src/com/enthusiast94/ds/main/Network.java:190-195 | every sender loses exactly its outgoing head and becomes a participant iff it is an ELECTION message, and no other field of it changes (leader fields included); non-senders are unchanged |
| `Rounds.SendAll` | ds-assignment/src/com/enthusiast94/ds/main/Network.java:190-195 | definition of the first delivery loop; properties in `Rounds.SendAllSpec` |
| `Rounds.InboundOfNext` | ds-assignment/src/com/enthusiast94/ds/main/Network.java:197-202 | the `next` of a sender receives exactly that sender's message |
| `Rounds.InboundSender` | ds-assignment/src/com/enthusiast94/ds/main/Network.java:197-202 | a node receives a message only from a sender whose `next` it is |
| `Rounds.ReceiveAllSpec` | ds-assignment/src/com/enthusiast94/ds/main/Network.java:197-202 | each sender's message is appended to its `next`'s incoming queue; a node nobody sends to keeps its queue; every node differs from before at most in its incoming queue |
| `Rounds.ReceiveAll` | ds-assignment/src/com/enthusiast94/ds/main/Network.java:197-202 | definition of the second delivery loop; properties in `Rounds.ReceiveAllSpec` |
| `Rounds.Deliver` | ds-assignment/src/com/enthusiast94/ds/main/Network.java:183-205 | definition of `deliverMessages`, where no sender throws and no two senders share a `next`; properties in `Rounds.DeliverMoves` |
| `Rounds.DeliverMoves` | ds-assignment/src/com/enthusiast94/ds/main/Network.java:183-205 | delivery moves each collected head from the sender's outgoing queue to its `next`'s incoming queue, leaves non-senders' outgoing queues alone, keeps the ring, changes no field of a node other than its queues and participant flag (leader fields included), and ends with nothing collected |
| `Rounds.DeliverFrame` | ds-assignment/src/com/enthusiast94/ds/main/Network.java:183-205 | delivery changes a node only in its queues and its participant flag: id, leader flag, leader id, ring pointers and neighbours stay |
| `Rounds.DeliverNothing` | ds-assignment/src/com/enthusiast94/ds/main/Network.java:183-205 | with nothing collected, delivery changes no node |
| `Rounds.DeliverValid` | ds-assignment/src/com/enthusiast94/ds/main/Network.java:183-205 | delivery keeps the network keyed, ring-linked and carrying only ELECTION and LEADER messages |
| `Rounds.DeliverRing` | ds-assignment/src/com/enthusiast94/ds/main/Network.java:183-205 | delivery never changes an id, a ring pointer or a neighbour list |
| `Rounds.DeliverKeepsReady` | ds-assignment/src/com/enthusiast94/ds/main/Network.java:183-205 | delivery from a collected network keeps it valid, keeps the ring and the worker schedule, and leaves nothing collected |
| `Rounds.RunAllTokens` | ds-assignment/src/com/enthusiast94/ds/main/Node.java:194-206 | worker passes over ELECTION and LEADER messages never throw, keep the ring, empty the incoming queue of every node they run on and leave the other nodes unchanged |
| `Rounds.RunAllIdle` | ds-assignment/src/com/enthusiast94/ds/main/Node.java:194-206 | worker passes over empty incoming queues change nothing and log nothing |
| `Rounds.RunAll` | ds-assignment/src/com/enthusiast94/ds/main/Node.java:194-206 | definition of one pass of every worker in a given order; properties in `Rounds.RunAllTokens` and `Rounds.RunAllIdle` |
| `Rounds.FinishReady` | ds-assignment/src/com/enthusiast94/ds/main/Network.java:56-60 | after collection, the stop test, delivery and the worker passes never fail, return to the top of the loop with the same ring, round and election schedule, and report the stop test taken on the collected state |
| `Rounds.Finish` | ds-assignment/src/com/enthusiast94/ds/main/Network.java:56-60 | definition of the rest of a round after collection; `None` also when two senders share a `next`, where the source delivers both, which cannot happen at the top of the loop; properties in `Rounds.FinishReady` |
| `Rounds.RunReady` | ds-assignment/src/com/enthusiast94/ds/main/Node.java:196-203 | the worker passes after a delivery leave every incoming queue processed and the network valid |
| `Rounds.FinishIdle` | ds-assignment/src/com/enthusiast94/ds/main/Network.java:56-60 | with nothing collected and nothing received, the rest of the round changes nothing and logs nothing |
| `Rounds.RoundPreservesReady` | ds-assignment/src/com/enthusiast94/ds/main/Network.java:49-67 | a round succeeds iff its collection does (every election start names a node); a successful round increases `round` by exactly one and keeps the loop invariant, the ring and the worker schedule |
| `Rounds.Round` | ds-assignment/src/com/enthusiast94/ds/main/Network.java:49-67 | definition of one loop iteration; properties in `Rounds.RoundPreservesReady`, `Rounds.RoundEnds` and `Rounds.RoundSucceeds` |
| `Rounds.RoundSucceeds` | ds-assignment/src/com/enthusiast94/ds/main/Network.java:163-171 | from the top of the loop, a round whose election schedule lists only nodes never fails (no `null` is dereferenced at line 168), and the schedule it leaves again lists only nodes |
| `Rounds.RoundKeepsLoop` | ds-assignment/src/com/enthusiast94/ds/main/Network.java:49-67 | what the loop keeps across one round: a successful round returns to the top of the loop one round later with the same ring, quiescent if it stopped; a schedule that lists only nodes makes the round succeed and stays so |
| `Rounds.RoundEnds` | ds-assignment/src/com/enthusiast94/ds/main/Network.java:56-58 | the loop stops after a round iff nothing was collected and no election start remains; a stopping round leaves the network quiescent and logs nothing |
| `Rounds.CollectEnds` | ds-assignment/src/com/enthusiast94/ds/main/Network.java:56-58 | the stop test holds after collection iff every outgoing queue is empty and the only election entry is an empty one for this round; it then finds the network unchanged but for the removed entry |
| `Rounds.QuiescentEnds` | ds-assignment/src/com/enthusiast94/ds/main/Network.java:49-67 | a quiescent network stops in the next round, changing nothing but the round counter |
| `Rounds.StaleElectionBlocksEnd` | ds-assignment/src/com/enthusiast94/ds/main/Network.java:163-171 | an election start scheduled for a round that has already passed is never removed, so the loop does not stop |
| `Topology.ReadAll` | ds-assignment/src/com/enthusiast94/ds/main/Network.java:97-148 | the last main node read is always a node of the network |
| `Topology.ReadAllRing` | ds-assignment/src/com/enthusiast94/ds/main/Network.java:113-147 | with distinct main ids, each id's `next` is the following id and the last id's `next` is the first |
| `Topology.OtherLineKeepsRing` | ds-assignment/src/com/enthusiast94/ds/main/Network.java:98-112 | header, ELECT and FAIL lines leave the nodes alone |
| `Topology.ReadLine` | ds-assignment/src/com/enthusiast94/ds/main/Network.java:97-147 | definition of one line of `parseFile`; properties in `Topology.OtherLineKeepsRing` and `Topology.RingGrows` |
| `Topology.RingGrows` | ds-assignment/src/com/enthusiast94/ds/main/Network.java:117-146 | one node line with a new main id extends the ring by that id |
| `Topology.ReadAllPristine` | ds-assignment/src/com/enthusiast94/ds/main/Network.java:119-120 | every node read is keyed by its id and starts with empty queues, no leader and no `previous` |
| `Topology.LoadSchedule` | ds-assignment/src/com/enthusiast94/ds/main/Network.java:100-112 | a round is scheduled iff an ELECT line names it, with the ids of the last such line; FAIL ids are kept in order |
| `Topology.LoadReady` | ds-assignment/src/com/enthusiast94/ds/main/Network.java:83-151 | with distinct main ids the loaded network is at the top of the round loop and the node-line order schedules every worker once |
| `Topology.Load` | ds-assignment/src/com/enthusiast94/ds/main/Network.java:83-151 | definition of `parseFile` from a fresh network; properties in `Topology.LoadReady` and `Topology.LoadSchedule` |
| `Topology.LastElectIsLine` | ds-assignment/src/com/enthusiast94/ds/main/Network.java:100-109 | the schedule of a round is the id list of one of the ELECT lines |
| `Topology.LoadElectsNodes` | ds-assignment/src/com/enthusiast94/ds/main/Network.java:100-120 | with distinct main ids, when every ELECT line lists only main ids, every id in the loaded schedule is a node |
| `Simulation.Network.constructor` | ds-assignment/src/com/enthusiast94/ds/main/Network.java:21-31 | a new network has no nodes, round 0, nothing collected or scheduled, and an empty log |
| `Simulation.Network.ParseFile` | ds-assignment/src/com/enthusiast94/ds/main/Network.java:83-151 | the network ends as `Load` says, with a fresh node object per id |
| `Simulation.Network.ReadNodeLine` | ds-assignment/src/com/enthusiast94/ds/main/Network.java:113-147 | a node line updates the network, `first` and `previous` as `ReadLine` says |
| `Simulation.Network.PutNode` | ds-assignment/src/com/enthusiast94/ds/main/Network.java:118-131 | a fresh node is put under the main id and the previous main node is linked to it; nothing else changes |
| `Simulation.Network.AddMessage` | ds-assignment/src/com/enthusiast94/ds/main/Network.java:153-160 | the message replaces any message collected from the same node |
| `Simulation.Network.CollectMessages` | ds-assignment/src/com/enthusiast94/ds/main/Network.java:162-181 | the network ends as `Collect` says, and the method fails exactly where `Collect` does |
| `Simulation.Network.StartElections` | ds-assignment/src/com/enthusiast94/ds/main/Network.java:163-172 | the nodes end as `Inject` says, and the method fails exactly where a listed id is not a node |
| `Simulation.Network.CollectHeads` | ds-assignment/src/com/enthusiast94/ds/main/Network.java:174-180 | the head of every non-empty outgoing queue is added to the collected messages |
| `Simulation.Network.DeliverMessages` | ds-assignment/src/com/enthusiast94/ds/main/Network.java:183-205 | the collected map ends empty; the method fails where the source throws (a sender that is not a node, a message that does not parse, an unset `next`) and also where a sender's `next` is not a key of the network, where the source would deliver to a node object outside the map; when no two senders share a `next`, the nodes end as `Deliver` says. On a network at the top of the loop every `next` is a key and no two senders share one, so neither extra case arises there |
| `Simulation.Network.SendCollected` | ds-assignment/src/com/enthusiast94/ds/main/Network.java:190-195 | the first delivery loop ends as `SendAll` says, and fails iff a sender is not a node or its message does not parse |
| `Simulation.Network.SendOne` | ds-assignment/src/com/enthusiast94/ds/main/Network.java:191-194 | `sendMsg` on one node, no other node changes |
| `Simulation.Network.ReceiveCollected` | ds-assignment/src/com/enthusiast94/ds/main/Network.java:197-202 | the second delivery loop never changes the ring and fails iff a sender or its `next` is missing; when it succeeds and no two senders share a `next`, it ends as `ReceiveAll` says |
| `Simulation.Network.ReceiveFrom` | ds-assignment/src/com/enthusiast94/ds/main/Network.java:198-201 | one pass of the second loop succeeds iff the sender and its `next` are nodes; it then keeps the loop invariant with that sender done, and otherwise changes nothing |
| `Simulation.Network.NextOf` | ds-assignment/src/com/enthusiast94/ds/main/Network.java:198-201 | the lookup of a sender's `next` succeeds iff both the sender and its `next` are nodes |
| `Simulation.Network.ReceiveOne` | ds-assignment/src/com/enthusiast94/ds/main/Network.java:201 | `receiveMsg` on one node, no other node changes |
| `Simulation.Network.RunWorkers` | ds-assignment/src/com/enthusiast94/ds/main/Node.java:194-206 | one pass of every worker, in the given order, ends as `RunAll` says and appends the lines logged |
| `Simulation.Network.RunOne` | ds-assignment/src/com/enthusiast94/ds/main/Node.java:196-203 | one node's worker pass, as `Batch` says; no other node changes |
| `Simulation.Network.Step` | ds-assignment/src/com/enthusiast94/ds/main/Network.java:49-67 | one loop iteration ends as `Round` says, including the stop flag and the log |
| `Simulation.Network.NextRound` | ds-assignment/src/com/enthusiast94/ds/main/Network.java:50 | `round` goes up by one and nothing else changes |
| `Simulation.Network.FinishRound` | ds-assignment/src/com/enthusiast94/ds/main/Network.java:56-60 | the stop test, delivery and the worker passes end as `Finish` says |
| `Simulation.Network.Run` | ds-assignment/src/com/enthusiast94/ds/main/Network.java:49-67 | the round loop keeps the loop invariant and the ring, runs at most `fuel` rounds (all of them unless it stops), and stops only at a quiescent network; when every id in the election schedule is a node, it does not fail |
| `Simulation.Network.Start` | ds-assignment/src/com/enthusiast94/ds/main/Network.java:33-81 | with distinct main ids, a run that does not fail keeps the ring read from the description, ends at the top of the loop within `fuel` rounds, and stops only at a quiescent network; when every ELECT line lists only main ids, the run does not fail |

## Left out

- Threads: `Node extends Thread`, its busy-polling `run` loop, `shouldStop`/`stopNode`,
  the synchronized lists and methods, and starting and stopping the threads in `start`. The
  model is sequential. After delivery, every worker makes one pass over its incoming queue,
  in an order given as the parameter `order`. A failed neighbour's fields are read as they
  were when the passes began (`FailureView`). The races of the source are not modelled:
  for example, the stop test can fire before a worker has processed its queue.
- A worker that throws ends only its own thread in the source. In the model the round
  fails (`RunAll` returns `None`).
- Simulation.Network.Run: the loop is bounded by a `fuel` parameter. A run that has not
  stopped within `fuel` rounds returns with `ended` false. Termination of the source's
  unbounded loop is not proved.
- Convergence to a single leader with the maximum id over a whole run is not proved. It
  needs a liveness argument over many rounds. Only the per-message facts it rests on are
  proved (`ElectionJoins`, `ElectionWins`, `ElectionFiltered`, `EmittedElectionsDominate`,
  `LogsOnlyOnWin`).
- Simulation.Network.DeliverMessages: the map of collected messages is cleared before
  the two loops, which read a copy of it. This differs from the source only when a loop
  throws.
- Simulation.Network.DeliverMessages: when two senders share a `next`, the source's result
  depends on the map's iteration order. The model then promises only that the method does
  not throw; it does not say what the queues hold. Every network that starts at the top of
  the loop has an injective `next`.
- Simulation.Network.ReceiveCollected: the same gap for the second delivery loop on its
  own. When two senders share a `next`, the order in which that node receives their messages
  depends on the map's iteration order, and the contract says only whether the loop
  succeeds and that the ring is unchanged, not what the incoming queues hold.
- Simulation.Network.CollectMessages, Simulation.Network.DeliverMessages,
  Simulation.Network.RunWorkers, Simulation.Network.Step: where the source throws, only
  the failure is reported. The state that the source leaves partly updated is not described.
- Simulation.Network.Start: the main ids of the node lines are required to be distinct.
  The source would create a second node object under a repeated id and keep stale `next`
  links to the first one; object identity of that kind is not modelled.
- Simulation.Network.ReadNodeLine: neighbour ids that are not (yet) nodes become separate
  `Node` objects in the source (`Network.java:136-138`). The model keeps every neighbour as
  an id.
- Tokenising the input file, `Integer.valueOf` on negative or overflowing numbers, and
  message ids outside the naturals are left out. Records arrive already split, and ids are
  natural numbers.
- Codec.Parse: an id token with a leading `+` (`ELECTION +5`) or with non-ASCII decimal
  digits, both of which `Integer.valueOf` accepts, parses to `BadToken` in the model, so
  processing such a message throws there, while the source reads the number. Only ASCII
  digit strings are read as ids.
- The FAIL records are stored but never acted on, and `informNodeFailure` is empty
  (`Network.java:207-211`). Nothing of it is modelled beyond storing the records.
- Reading the input file, writing the log file (`Logger.logToFile`), the `Logger`
  singleton, `System.out.println`, `Thread.sleep` and `main` are I/O or timing. They are
  left out; the log is the `lines` of a `Logger` object.
