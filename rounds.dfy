/** The network on values: the arena of node states keyed by id, the round counter, the
    messages collected in the current round and the election starts still scheduled.
    One round of the simulator is `Collect`, then `Deliver`, then one worker pass of every
    node (`RunAll`); class `Network` in module Simulation is proved to follow these
    functions. */
module Rounds {
  import opened Codec
  import opened Protocol

  /** The nodes, keyed by id; `next`, `previous` and the neighbours are keys. */
  type Arena = map<nat, NodeState>

  /** The fields of a `Network`: `messagesToDeliver` maps a sender to the one message
      collected from it, `electionMessagesPerRound` maps a round to the nodes that start
      an election in it, and `failMessages` holds the parsed FAIL records. */
  datatype NetState = NetState(
    nodes: Arena,
    round: int,
    toDeliver: map<nat, string>,
    elect: map<int, seq<nat>>,
    fails: seq<nat>)

  /** `n` copies of `x`. */
  function Copies(x: string, n: nat): seq<string> {
    if n == 0 then [] else Copies(x, n - 1) + [x]
  }

  // ---------------------------------------------------------------------------------
  // collectMessages

  /** The election starts of one round, in list order: each listed node queues
      `ELECTION <id>` with the id it is listed under. `None` when a listed id is not a
      node, where the source dereferences the `null` that the lookup returns. */
  function Inject(ns: Arena, ids: seq<nat>): Option<Arena>
    decreases |ids|
  {
    if ids == [] then Some(ns)
    else
      match Inject(ns, ids[..|ids| - 1])
      case None => None
      case Some(m) =>
        var x := ids[|ids| - 1];
        if x in m then Some(m[x := m[x].(outgoing := m[x].outgoing + [Encode(Election(x))])]) else None
  }

  /** The head of every non-empty outgoing queue, keyed by its node. */
  function Heads(ns: Arena): map<nat, string> {
    map k | k in ns && ns[k].outgoing != [] :: ns[k].outgoing[0]
  }

  /** The nodes scheduled to start an election in the current round. */
  function Scheduled(n: NetState): seq<nat> {
    if n.round in n.elect then n.elect[n.round] else []
  }

  /** `collectMessages`: inject this round's election starts and drop the round's entry,
      then put the head of every non-empty outgoing queue into `toDeliver`. */
  function Collect(n: NetState): Option<NetState> {
    match Inject(n.nodes, Scheduled(n))
    case None => None
    case Some(ns) =>
      Some(n.(nodes := ns, elect := n.elect - {n.round}, toDeliver := n.toDeliver + Heads(ns)))
  }

  /** The test at the top of the round loop, taken right after collection. */
  predicate ShouldEnd(n: NetState) {
    |n.toDeliver| == 0 && |n.elect| == 0
  }

  // ---------------------------------------------------------------------------------
  // deliverMessages

  /** Delivery does not throw: every sender is a node whose message parses and whose
      `next` is a node. */
  predicate SendersReady(n: NetState) {
    forall k :: k in n.toDeliver ==>
      && k in n.nodes
      && !Parse(n.toDeliver[k]).BadToken?
      && n.nodes[k].next.Some?
      && n.nodes[k].next.value in n.nodes
  }

  /** What delivery relies on: it does not throw, and no two senders share a `next`. */
  predicate DeliverReady(n: NetState) {
    && SendersReady(n)
    && (forall a, b :: a in n.toDeliver && b in n.toDeliver && a != b ==>
          n.nodes[a].next != n.nodes[b].next)
  }

  /** The message that node `k` receives in this delivery: the one collected from the
      sender whose `next` is `k`, if there is one. */
  ghost function Inbound(ns: Arena, td: map<nat, string>, k: nat): seq<string> {
    if exists j :: j in td && j in ns && ns[j].next == Some(k) then
      var j :| j in td && j in ns && ns[j].next == Some(k);
      [td[j]]
    else
      []
  }

  /** The first loop of `deliverMessages`: every sender takes its collected message off
      its outgoing queue (`sendMsg`). */
  function SendAll(ns: Arena, td: map<nat, string>): Arena
    requires forall k :: k in td && k in ns ==> !Parse(td[k]).BadToken?
  {
    map k | k in ns :: if k in td then Send(ns[k], td[k]).value else ns[k]
  }

  /** The second loop of `deliverMessages`: every collected message is appended to the
      incoming queue of its sender's `next`. */
  ghost function ReceiveAll(ns: Arena, td: map<nat, string>): Arena {
    map k | k in ns :: ns[k].(incoming := ns[k].incoming + Inbound(ns, td, k))
  }

  /** `deliverMessages`: send, receive, and clear `toDeliver`. */
  ghost function Deliver(n: NetState): NetState
    requires DeliverReady(n)
  {
    n.(nodes := ReceiveAll(SendAll(n.nodes, n.toDeliver), n.toDeliver), toDeliver := map[])
  }

  // ---------------------------------------------------------------------------------
  // The worker passes

  /** What a worker can read of a failed neighbour: the fields of the node with that id,
      or `null` fields for an id that is not a node. */
  function FailureView(ns: Arena): nat -> NodeView {
    (f: nat) =>
      if f in ns then NodeView(ns[f].previous, ns[f].next, ns[f].isLeader)
      else NodeView(None, None, false)
  }

  /** The nodes after their worker passes, and the lines those passes logged. */
  datatype Workers = Workers(nodes: Arena, logged: seq<string>)

  /** The worker passes of the nodes in `order`, one after another. `None` when a worker
      throws. */
  function RunAll(ns: Arena, order: seq<nat>, failed: nat -> NodeView): Option<Workers>
    decreases |order|
  {
    if order == [] then Some(Workers(ns, []))
    else
      match RunAll(ns, order[..|order| - 1], failed)
      case None => None
      case Some(w) =>
        var k := order[|order| - 1];
        if k !in w.nodes then None
        else
          match Batch(w.nodes[k], failed)
          case Crash(_) => None
          case Ok(t, more) => Some(Workers(w.nodes[k := t], w.logged + more))
  }

  // ---------------------------------------------------------------------------------
  // Invariants of the running network

  predicate Keyed(ns: Arena) {
    forall k :: k in ns ==> ns[k].id == k
  }

  /** Every `next` is a node, and no two nodes share a `next`. */
  predicate RingLinked(ns: Arena) {
    && (forall k :: k in ns ==> ns[k].next.Some? && ns[k].next.value in ns)
    && (forall a, b :: a in ns && b in ns && a != b ==> ns[a].next != ns[b].next)
  }

  /** Only ELECTION and LEADER messages are queued. */
  ghost predicate Carrying(ns: Arena) {
    forall k :: k in ns ==> AllTokens(ns[k].incoming) && AllTokens(ns[k].outgoing)
  }

  ghost predicate Valid(ns: Arena) {
    Keyed(ns) && RingLinked(ns) && Carrying(ns)
  }

  /** The state at the top of the round loop: nothing collected, nothing unprocessed. */
  ghost predicate Ready(n: NetState) {
    && Valid(n.nodes)
    && n.toDeliver == map[]
    && (forall k :: k in n.nodes ==> n.nodes[k].incoming == [])
  }

  /** No message anywhere and no election start pending. */
  predicate Quiescent(n: NetState) {
    && n.toDeliver == map[]
    && n.elect == map[]
    && (forall k :: k in n.nodes ==> n.nodes[k].incoming == [] && n.nodes[k].outgoing == [])
  }

  /** A schedule of the workers: every node exactly once. */
  predicate Schedules(ns: Arena, order: seq<nat>) {
    && (forall i :: 0 <= i < |order| ==> order[i] in ns)
    && (forall k :: k in ns ==> k in order)
    && (forall i, j :: 0 <= i < j < |order| ==> order[i] != order[j])
  }

  // ---------------------------------------------------------------------------------
  // One round

  datatype RoundResult = RoundResult(net: NetState, ended: bool, logged: seq<string>)

  /** The network with its round counter advanced, as at the top of the loop body. */
  function Advance(n: NetState): NetState {
    n.(round := n.round + 1)
  }

  /** One iteration of the loop in `start`: advance the round, collect, then deliver and
      run the workers. `None` when collection dereferences `null` or `Finish` fails. */
  ghost function Round(n: NetState, order: seq<nat>): Option<RoundResult> {
    match Collect(Advance(n))
    case None => None
    case Some(c) => Finish(c, order)
  }

  /** The rest of a round on the collected network `c`: take the stop test, deliver, and
      let every worker process what it received. `None` when a worker throws or when
      `DeliverReady` fails: where the source throws in delivery, and also where a sender's
      `next` is not a key or two senders share a `next`, neither of which arises on a
      network collected from the top of the loop (`CollectReady`). */
  ghost function Finish(c: NetState, order: seq<nat>): Option<RoundResult> {
    if !DeliverReady(c) then None
    else
      var d := Deliver(c);
      match RunAll(d.nodes, order, FailureView(d.nodes))
      case None => None
      case Some(w) => Some(RoundResult(d.(nodes := w.nodes), ShouldEnd(c), w.logged))
  }

  /** The state right after collection from the top of the loop: valid, every non-empty
      outgoing queue has its head collected, and nothing unprocessed. */
  ghost predicate Collected(c: NetState) {
    && Valid(c.nodes)
    && c.toDeliver == Heads(c.nodes)
    && DeliverReady(c)
    && (forall k :: k in c.nodes ==> c.nodes[k].incoming == [])
  }

  // ---------------------------------------------------------------------------------
  // Lemmas: collection

  /** Injection succeeds exactly when every listed id is a node, and keeps the keys. */
  lemma {:induction false} InjectDefined(ns: Arena, ids: seq<nat>)
    ensures Inject(ns, ids).Some? <==> forall i :: 0 <= i < |ids| ==> ids[i] in ns
    ensures Inject(ns, ids).Some? ==> Inject(ns, ids).value.Keys == ns.Keys
    decreases |ids|
  {
    if ids != [] {
      var init := ids[..|ids| - 1];
      InjectDefined(ns, init);
      if Inject(ns, init).None? {
        var i :| 0 <= i < |init| && init[i] !in ns;
        assert ids[i] == init[i];
      }
    }
  }

  /** After a successful injection each node's outgoing queue has gained one
      `ELECTION <its id>` per time it is listed, and nothing else has changed. */
  lemma {:induction false} InjectCounts(ns: Arena, ids: seq<nat>)
    requires Inject(ns, ids).Some?
    ensures forall k :: k in ns ==>
              k in Inject(ns, ids).value &&
              Inject(ns, ids).value[k]
                == ns[k].(outgoing := ns[k].outgoing + Copies(Encode(Election(k)), multiset(ids)[k]))
    decreases |ids|
  {
    if ids != [] {
      var init, x := ids[..|ids| - 1], ids[|ids| - 1];
      assert ids == init + [x];
      InjectCounts(ns, init);
      assert multiset(ids) == multiset(init) + multiset{x};
      var m := Inject(ns, init).value;
      var m' := m[x := m[x].(outgoing := m[x].outgoing + [Encode(Election(x))])];
      forall k | k in ns
        ensures k in m' && m'[k] == ns[k].(outgoing := ns[k].outgoing + Copies(Encode(Election(k)), multiset(ids)[k]))
      {
        var e, c := Encode(Election(k)), multiset(init)[k];
        if k == x {
          assert multiset(ids)[k] == c + 1;
          assert ns[k].outgoing + Copies(e, c) + [e] == ns[k].outgoing + Copies(e, c + 1);
        } else {
          assert multiset(ids)[k] == c;
        }
      }
    }
  }

  /** Collection injects exactly the elections scheduled for the current round, removes
      that round's entry and leaves every other round's entry as it was. */
  lemma CollectElections(n: NetState)
    ensures Collect(n).Some? <==> forall i :: 0 <= i < |Scheduled(n)| ==> Scheduled(n)[i] in n.nodes
    ensures Collect(n).Some? ==>
              var c := Collect(n).value;
              && c.nodes.Keys == n.nodes.Keys
              && (forall k :: k in n.nodes ==>
                    c.nodes[k]
                      == n.nodes[k].(outgoing := n.nodes[k].outgoing + Copies(Encode(Election(k)), multiset(Scheduled(n))[k])))
              && n.round !in c.elect
              && (forall r :: r != n.round ==> (r in c.elect <==> r in n.elect))
              && (forall r :: r != n.round && r in n.elect ==> c.elect[r] == n.elect[r])
  {
    InjectDefined(n.nodes, Scheduled(n));
    if Collect(n).Some? {
      InjectCounts(n.nodes, Scheduled(n));
    }
  }

  /** After collection `toDeliver` holds, besides what it held, exactly one entry per node
      whose outgoing queue is non-empty, and that entry is the head of the queue. No
      queue loses a message, and the incoming queues and ring pointers are untouched. */
  lemma CollectHeads(n: NetState)
    requires Collect(n).Some?
    ensures var c := Collect(n).value;
            && SameRing(n.nodes, c.nodes)
            && (forall k :: k in c.toDeliver <==>
                  k in n.toDeliver || (k in c.nodes && c.nodes[k].outgoing != []))
            && (forall k :: k in c.nodes && c.nodes[k].outgoing != [] ==>
                  c.toDeliver[k] == c.nodes[k].outgoing[0])
            && (forall k :: k in n.nodes ==>
                  n.nodes[k].outgoing <= c.nodes[k].outgoing && c.nodes[k].incoming == n.nodes[k].incoming)
  {
    InjectDefined(n.nodes, Scheduled(n));
    if Collect(n).Some? {
      InjectCounts(n.nodes, Scheduled(n));
    }
  }

  /** With no election start scheduled for the round, collection changes no node. */
  lemma CollectOnlyInjects(n: NetState)
    requires n.round !in n.elect
    ensures Collect(n) == Some(n.(toDeliver := n.toDeliver + Heads(n.nodes)))
  {
    assert n.elect - {n.round} == n.elect;
  }

  /** From the top of the loop, collection yields a network that delivery can handle:
      only heads of queues are collected, and they are ELECTION or LEADER messages. */
  lemma CollectReady(n: NetState)
    requires Ready(n)
    ensures Collect(n).Some? ==>
              var c := Collect(n).value;
              && Collected(c)
              && SameRing(n.nodes, c.nodes)
              && c.round == n.round
  {
    if Collect(n).Some? {
      var c := Collect(n).value;
      CollectTokens(n);
      SameRingLinked(n.nodes, c.nodes);
      MergeIntoEmpty(Heads(c.nodes));
      HeadsReady(c);
    }
  }

  /** Election starts add only ELECTION messages and touch neither the ring nor the
      incoming queues. */
  lemma CollectTokens(n: NetState)
    requires Valid(n.nodes) && (forall k :: k in n.nodes ==> n.nodes[k].incoming == [])
    requires Collect(n).Some?
    ensures var c := Collect(n).value;
            && SameRing(n.nodes, c.nodes)
            && Carrying(c.nodes)
            && (forall k :: k in c.nodes ==> c.nodes[k].incoming == [])
  {
    InjectDefined(n.nodes, Scheduled(n));
    InjectCounts(n.nodes, Scheduled(n));
    var c := Collect(n).value;
    forall k | k in c.nodes
      ensures SameLinks(n.nodes[k], c.nodes[k])
      ensures c.nodes[k].incoming == [] && AllTokens(c.nodes[k].incoming)
      ensures AllTokens(c.nodes[k].outgoing)
    {
      var e, count := Encode(Election(k)), multiset(Scheduled(n))[k];
      assert c.nodes[k] == n.nodes[k].(outgoing := n.nodes[k].outgoing + Copies(e, count));
      assert IsToken(e);
      CopiesTokens(e, count);
      AllTokensAppend(n.nodes[k].outgoing, Copies(e, count));
    }
  }

  /** A solver hint: an identity on maps that is stated as a lemma, rather than asserted
      inline, to keep the callers' proofs small. */
  lemma MergeIntoEmpty(m: map<nat, string>)
    ensures map[] + m == m
  {
  }

  /** Collecting the heads of a linked ring of ELECTION and LEADER queues is ready for
      delivery. */
  lemma HeadsReady(n: NetState)
    requires RingLinked(n.nodes) && Carrying(n.nodes) && n.toDeliver == Heads(n.nodes)
    ensures DeliverReady(n)
  {
    forall k | k in n.toDeliver
      ensures !Parse(n.toDeliver[k]).BadToken?
    {
      TokenParses(n.nodes[k].outgoing[0]);
    }
  }

  lemma {:induction false} CopiesTokens(x: string, n: nat)
    requires IsToken(x)
    ensures AllTokens(Copies(x, n))
  {
    if n > 0 {
      CopiesTokens(x, n - 1);
    }
  }

  lemma AllTokensAppend(a: seq<string>, b: seq<string>)
    requires AllTokens(a) && AllTokens(b)
    ensures AllTokens(a + b)
  {
    forall i | 0 <= i < |a + b|
      ensures IsToken((a + b)[i])
    {
      if i >= |a| {
        assert (a + b)[i] == b[i - |a|];
      }
    }
  }

  // ---------------------------------------------------------------------------------
  // Lemmas: the shape of the ring

  /** Same keys, and every node keeps its id, ring pointers and neighbours. */
  predicate SameRing(a: Arena, b: Arena) {
    a.Keys == b.Keys && forall k :: k in a ==> SameLinks(a[k], b[k])
  }

  /** Keys, ids and ring pointers are all that `Keyed` and `RingLinked` look at. */
  lemma SameRingLinked(a: Arena, b: Arena)
    requires SameRing(a, b) && Keyed(a) && RingLinked(a)
    ensures Keyed(b) && RingLinked(b)
  {
    assert forall k :: k in b ==> b[k].next == a[k].next;
  }

  lemma SameRingTrans(a: Arena, b: Arena, c: Arena)
    requires SameRing(a, b) && SameRing(b, c)
    ensures SameRing(a, c)
  {
  }

  // ---------------------------------------------------------------------------------
  // Lemmas: delivery

  /** The first loop: every sender loses exactly the head of its outgoing queue and
      becomes a participant iff that head is an ELECTION message; no other node and no
      other field changes. */
  lemma SendAllSpec(ns: Arena, td: map<nat, string>)
    requires forall k :: k in td ==>
               k in ns && ns[k].outgoing != [] && td[k] == ns[k].outgoing[0] && !Parse(td[k]).BadToken?
    ensures var r := SendAll(ns, td);
            && SameRing(ns, r)
            && (forall k :: k in ns ==> r[k].incoming == ns[k].incoming)
            && (forall k :: k in td ==>
                  && r[k].outgoing == ns[k].outgoing[1..]
                  && r[k].isParticipant == (ns[k].isParticipant || IsElection(td[k])))
            && (forall k :: k in td ==>
                  r[k] == ns[k].(outgoing := ns[k].outgoing[1..],
                                 isParticipant := ns[k].isParticipant || IsElection(td[k])))
            && (forall k :: k in ns && k !in td ==> r[k] == ns[k])
  {
    var r := SendAll(ns, td);
    forall k | k in td
      ensures r[k] == ns[k].(outgoing := ns[k].outgoing[1..], isParticipant := ns[k].isParticipant || IsElection(td[k]))
    {
      SendHead(ns[k]);
    }
  }

  /** The receiver of `j`'s message gets exactly that message. */
  lemma InboundOfNext(ns: Arena, td: map<nat, string>, j: nat)
    requires j in td && j in ns && ns[j].next.Some?
    requires forall a, b :: a in td && b in td && a in ns && b in ns && a != b ==> ns[a].next != ns[b].next
    ensures Inbound(ns, td, ns[j].next.value) == [td[j]]
  {
  }

  /** A node that receives something receives it from a sender whose `next` it is. */
  lemma InboundSender(ns: Arena, td: map<nat, string>, k: nat) returns (j: nat)
    requires Inbound(ns, td, k) != []
    ensures j in td && j in ns && ns[j].next == Some(k) && Inbound(ns, td, k) == [td[j]]
  {
    j :| j in td && j in ns && ns[j].next == Some(k) && Inbound(ns, td, k) == [td[j]];
  }

  /** The second loop: the message of every sender is appended to the incoming queue of
      its `next`; a node that nobody sends to keeps its incoming queue; nothing else
      changes. */
  lemma ReceiveAllSpec(ns: Arena, td: map<nat, string>)
    requires forall k :: k in td ==> k in ns && ns[k].next.Some? && ns[k].next.value in ns
    requires forall a, b :: a in td && b in td && a != b ==> ns[a].next != ns[b].next
    ensures var r := ReceiveAll(ns, td);
            && SameRing(ns, r)
            && (forall k :: k in ns ==> r[k].outgoing == ns[k].outgoing && r[k].isParticipant == ns[k].isParticipant)
            && (forall k :: k in ns ==> k in r && r[k] == ns[k].(incoming := r[k].incoming))
            && (forall j :: j in td ==>
                  r[ns[j].next.value].incoming == ns[ns[j].next.value].incoming + [td[j]])
            && (forall k :: k in ns && (forall j :: j in td ==> ns[j].next != Some(k)) ==>
                  r[k].incoming == ns[k].incoming)
  {
    forall j | j in td
      ensures Inbound(ns, td, ns[j].next.value) == [td[j]]
    {
      InboundOfNext(ns, td, j);
    }
  }

  /** Delivery of collected heads: every sender loses exactly the head of its outgoing
      queue and becomes a participant iff that head is an ELECTION message; the head is
      appended to the incoming queue of the sender's `next`; a node that sent nothing
      keeps its outgoing queue, a node that receives nothing keeps its incoming queue;
      no ring pointer changes and `toDeliver` ends empty. */
  lemma DeliverMoves(n: NetState)
    requires DeliverReady(n)
    requires forall k :: k in n.toDeliver ==>
               n.nodes[k].outgoing != [] && n.toDeliver[k] == n.nodes[k].outgoing[0]
    ensures var d := Deliver(n);
            && d.toDeliver == map[]
            && SameRing(n.nodes, d.nodes)
            && (forall j :: j in n.toDeliver ==>
                  && d.nodes[j].outgoing == n.nodes[j].outgoing[1..]
                  && d.nodes[j].isParticipant == (n.nodes[j].isParticipant || IsElection(n.toDeliver[j]))
                  && d.nodes[n.nodes[j].next.value].incoming
                       == n.nodes[n.nodes[j].next.value].incoming + [n.toDeliver[j]])
            && (forall k :: k in n.nodes && k !in n.toDeliver ==>
                  d.nodes[k].outgoing == n.nodes[k].outgoing
                  && d.nodes[k].isParticipant == n.nodes[k].isParticipant)
            && (forall k :: k in n.nodes && (forall j :: j in n.toDeliver ==> n.nodes[j].next != Some(k)) ==>
                  d.nodes[k].incoming == n.nodes[k].incoming)
            && (forall k :: k in n.nodes ==>
                  d.nodes[k] == n.nodes[k].(incoming := d.nodes[k].incoming, outgoing := d.nodes[k].outgoing,
                                            isParticipant := d.nodes[k].isParticipant))
  {
    var s := SendAll(n.nodes, n.toDeliver);
    SendAllSpec(n.nodes, n.toDeliver);
    ReceiveAllSpec(s, n.toDeliver);
    SameRingTrans(n.nodes, s, ReceiveAll(s, n.toDeliver));
    DeliverFrame(n);
  }

  /** Delivery changes only the queues and the participant flags. */
  lemma DeliverFrame(n: NetState)
    requires DeliverReady(n)
    requires forall k :: k in n.toDeliver ==>
               n.nodes[k].outgoing != [] && n.toDeliver[k] == n.nodes[k].outgoing[0]
    ensures var d := Deliver(n);
            forall k :: k in n.nodes ==>
              d.nodes[k] == n.nodes[k].(incoming := d.nodes[k].incoming, outgoing := d.nodes[k].outgoing,
                                        isParticipant := d.nodes[k].isParticipant)
  {
    var s := SendAll(n.nodes, n.toDeliver);
    SendAllSpec(n.nodes, n.toDeliver);
    ReceiveAllSpec(s, n.toDeliver);
  }

  /** With nothing collected, delivery changes no node. */
  lemma DeliverNothing(n: NetState)
    requires DeliverReady(n) && n.toDeliver == map[]
    ensures Deliver(n).nodes == n.nodes
  {
    var s := SendAll(n.nodes, n.toDeliver);
    assert s == n.nodes;
    forall k | k in s
      ensures s[k].incoming + Inbound(s, n.toDeliver, k) == s[k].incoming
    {
      assert Inbound(s, n.toDeliver, k) == [];
    }
  }

  /** Delivery keeps the network valid. */
  lemma DeliverValid(n: NetState)
    requires DeliverReady(n) && Valid(n.nodes)
    requires forall k :: k in n.toDeliver ==>
               n.nodes[k].outgoing != [] && n.toDeliver[k] == n.nodes[k].outgoing[0]
    ensures Valid(Deliver(n).nodes)
  {
    DeliverCarrying(n);
    DeliverRing(n);
    SameRingLinked(n.nodes, Deliver(n).nodes);
  }

  lemma DeliverCarrying(n: NetState)
    requires DeliverReady(n) && Carrying(n.nodes)
    requires forall k :: k in n.toDeliver ==>
               n.nodes[k].outgoing != [] && n.toDeliver[k] == n.nodes[k].outgoing[0]
    ensures Carrying(Deliver(n).nodes)
  {
    var s := SendAll(n.nodes, n.toDeliver);
    SendCarrying(n.nodes, n.toDeliver);
    ReceiveCarrying(s, n.toDeliver);
  }

  lemma DeliverRing(n: NetState)
    requires DeliverReady(n)
    requires forall k :: k in n.toDeliver ==>
               n.nodes[k].outgoing != [] && n.toDeliver[k] == n.nodes[k].outgoing[0]
    ensures SameRing(n.nodes, Deliver(n).nodes)
  {
    var s := SendAll(n.nodes, n.toDeliver);
    SendAllRing(n.nodes, n.toDeliver);
    ReceiveAllRing(s, n.toDeliver);
    SameRingTrans(n.nodes, s, ReceiveAll(s, n.toDeliver));
  }

  lemma SendAllRing(ns: Arena, td: map<nat, string>)
    requires forall k :: k in td ==>
               k in ns && ns[k].outgoing != [] && td[k] == ns[k].outgoing[0] && !Parse(td[k]).BadToken?
    ensures SameRing(ns, SendAll(ns, td))
  {
    SendAllSpec(ns, td);
  }

  lemma ReceiveAllRing(ns: Arena, td: map<nat, string>)
    ensures SameRing(ns, ReceiveAll(ns, td))
  {
  }

  /** Taking the heads off queues of ELECTION and LEADER messages leaves such queues,
      and the heads taken are such messages. */
  lemma SendCarrying(ns: Arena, td: map<nat, string>)
    requires Carrying(ns)
    requires forall k :: k in td ==>
               k in ns && ns[k].outgoing != [] && td[k] == ns[k].outgoing[0] && !Parse(td[k]).BadToken?
    ensures Carrying(SendAll(ns, td))
    ensures forall k :: k in td ==> IsToken(td[k])
  {
    var r := SendAll(ns, td);
    forall k | k in td
      ensures AllTokens(r[k].outgoing) && IsToken(td[k])
    {
      SendHead(ns[k]);
      AllTokensTail(ns[k].outgoing);
    }
  }

  /** Appending ELECTION and LEADER messages to such queues leaves such queues. */
  lemma ReceiveCarrying(ns: Arena, td: map<nat, string>)
    requires Carrying(ns)
    requires forall k :: k in td ==> IsToken(td[k])
    ensures Carrying(ReceiveAll(ns, td))
  {
    var r := ReceiveAll(ns, td);
    forall k | k in r
      ensures AllTokens(r[k].incoming)
    {
      var inb := Inbound(ns, td, k);
      if inb != [] {
        var j := InboundSender(ns, td, k);
        AllTokensAppend(ns[k].incoming, [td[j]]);
      } else {
        assert ns[k].incoming + inb == ns[k].incoming;
      }
    }
  }

  lemma AllTokensTail(q: seq<string>)
    requires AllTokens(q) && q != []
    ensures AllTokens(q[1..]) && AllTokens([q[0]])
  {
    assert forall i :: 0 <= i < |q| - 1 ==> q[1..][i] == q[i + 1];
  }

  // ---------------------------------------------------------------------------------
  // Lemmas: worker passes

  /** Worker passes over ELECTION and LEADER messages never throw, keep the ring, and
      empty the incoming queue of every node they run on; the other nodes are left as
      they were. */
  lemma {:induction false} RunAllTokens(ns: Arena, order: seq<nat>, failed: nat -> NodeView)
    requires Carrying(ns)
    requires forall i :: 0 <= i < |order| ==> order[i] in ns
    ensures RunAll(ns, order, failed).Some?
    ensures var w := RunAll(ns, order, failed).value;
            && SameRing(ns, w.nodes)
            && Carrying(w.nodes)
            && (forall k :: k in ns && k in order ==> w.nodes[k].incoming == [])
            && (forall k :: k in ns && k !in order ==> w.nodes[k] == ns[k])
    decreases |order|
  {
    if order != [] {
      var init, k := order[..|order| - 1], order[|order| - 1];
      RunAllTokens(ns, init, failed);
      var w := RunAll(ns, init, failed).value;
      BatchTokens(w.nodes[k], failed);
      var t := Batch(w.nodes[k], failed).state;
      var nodes := w.nodes[k := t];
      assert RunAll(ns, order, failed) == Some(Workers(nodes, w.logged + Batch(w.nodes[k], failed).logged));
      forall j | j in ns && j in order && j != k
        ensures j in init
      {
        InPrefix(order, j);
      }
    }
  }

  lemma InPrefix(s: seq<nat>, x: nat)
    requires x in s && x != s[|s| - 1]
    ensures x in s[..|s| - 1]
  {
    var i :| 0 <= i < |s| && s[i] == x;
    assert s[..|s| - 1][i] == x;
  }

  /** A worker pass over an empty incoming queue changes nothing and logs nothing. */
  lemma {:induction false} RunAllIdle(ns: Arena, order: seq<nat>, failed: nat -> NodeView)
    requires forall i :: 0 <= i < |order| ==> order[i] in ns
    requires forall k :: k in ns ==> ns[k].incoming == []
    ensures RunAll(ns, order, failed) == Some(Workers(ns, []))
    decreases |order|
  {
    if order != [] {
      var k := order[|order| - 1];
      RunAllIdle(ns, order[..|order| - 1], failed);
      BatchIdle(ns[k], failed);
      assert ns[k := ns[k]] == ns;
      var none: seq<string> := [];
      assert none + none == none;
      assert RunAll(ns, order, failed) == Some(Workers(ns[k := ns[k]], none + none));
    }
  }

  // ---------------------------------------------------------------------------------
  // Lemmas: rounds

  /** From a collected network, the rest of the round never fails: it keeps the network
      valid and the ring as it was, leaves nothing collected and nothing unprocessed,
      and does not touch the round counter or the election schedule. */
  lemma FinishReady(c: NetState, order: seq<nat>)
    requires Collected(c) && Schedules(c.nodes, order)
    ensures Finish(c, order).Some?
    ensures var o := Finish(c, order).value;
            && Ready(o.net)
            && SameRing(c.nodes, o.net.nodes)
            && o.net.round == c.round && o.net.elect == c.elect
            && o.ended == ShouldEnd(c)
  {
    var d := Deliver(c);
    DeliverKeepsReady(c, order);
    RunReady(d, order);
    var w := RunAll(d.nodes, order, FailureView(d.nodes)).value;
    SameRingTrans(c.nodes, d.nodes, w.nodes);
    assert Finish(c, order) == Some(RoundResult(d.(nodes := w.nodes), ShouldEnd(c), w.logged));
    var o := Finish(c, order).value;
    assert o.net == d.(nodes := w.nodes) && o.ended == ShouldEnd(c);
  }

  /** Delivery from a collected network leaves nothing collected, keeps the network
      valid and the ring as it was. */
  lemma DeliverKeepsReady(c: NetState, order: seq<nat>)
    requires Collected(c) && Schedules(c.nodes, order)
    ensures var d := Deliver(c);
            Valid(d.nodes) && d.toDeliver == map[] && SameRing(c.nodes, d.nodes) && Schedules(d.nodes, order)
  {
    DeliverValid(c);
    DeliverRing(c);
    SameRingSchedules(c.nodes, Deliver(c).nodes, order);
  }

  /** The worker pass after a delivery that left nothing collected brings the network
      back to the top of the loop. */
  lemma RunReady(d: NetState, order: seq<nat>)
    requires Valid(d.nodes) && d.toDeliver == map[] && Schedules(d.nodes, order)
    ensures RunAll(d.nodes, order, FailureView(d.nodes)).Some?
    ensures var w := RunAll(d.nodes, order, FailureView(d.nodes)).value;
            Ready(d.(nodes := w.nodes)) && SameRing(d.nodes, w.nodes)
  {
    RunAllTokens(d.nodes, order, FailureView(d.nodes));
    var w := RunAll(d.nodes, order, FailureView(d.nodes)).value;
    SameRingLinked(d.nodes, w.nodes);
  }

  /** With nothing collected and nothing received, the rest of the round changes
      nothing and logs nothing. */
  lemma FinishIdle(c: NetState, order: seq<nat>)
    requires c.toDeliver == map[]
    requires forall k :: k in c.nodes ==> c.nodes[k].incoming == []
    requires forall i :: 0 <= i < |order| ==> order[i] in c.nodes
    ensures Finish(c, order) == Some(RoundResult(c, ShouldEnd(c), []))
  {
    DeliverNothing(c);
    RunAllIdle(c.nodes, order, FailureView(c.nodes));
  }

  /** A round whose collection succeeded is the rest of the round on what was collected. */
  lemma RoundIsFinish(n: NetState, order: seq<nat>, c: NetState)
    requires Collect(Advance(n)) == Some(c)
    ensures Round(n, order) == Finish(c, order)
  {
  }

  /** A round whose collection failed fails. */
  lemma RoundFails(n: NetState, order: seq<nat>)
    requires Collect(Advance(n)).None?
    ensures Round(n, order).None?
  {
  }

  /** Each round increases `round` by exactly one, and a round that starts at the top of
      the loop ends there: the network stays valid, nothing is left collected and every
      incoming queue has been processed. The round fails only where collection
      dereferences `null`. */
  lemma RoundPreservesReady(n: NetState, order: seq<nat>)
    requires Ready(n) && Schedules(n.nodes, order)
    ensures Round(n, order).Some? <==> Collect(Advance(n)).Some?
    ensures Round(n, order).Some? ==>
              var o := Round(n, order).value;
              && o.net.round == n.round + 1
              && Ready(o.net)
              && SameRing(n.nodes, o.net.nodes)
              && Schedules(o.net.nodes, order)
  {
    var n1 := Advance(n);
    CollectReady(n1);
    if Collect(n1).Some? {
      var c := Collect(n1).value;
      RoundIsFinish(n, order, c);
      FinishReady(c, order);
      var o := Finish(c, order).value;
      SameRingTrans(n.nodes, c.nodes, o.net.nodes);
      SameRingSchedules(n.nodes, o.net.nodes, order);
    } else {
      RoundFails(n, order);
    }
  }

  /** Every id listed in the election schedule, for any round, is a node. */
  predicate ElectsNodes(n: NetState) {
    forall r, i :: r in n.elect && 0 <= i < |n.elect[r]| ==> n.elect[r][i] in n.nodes
  }

  /** A round from the top of the loop whose election schedule lists only nodes
      succeeds, and the schedule it leaves again lists only nodes: with such a schedule
      no round of the loop fails. */
  lemma RoundSucceeds(n: NetState, order: seq<nat>)
    requires Ready(n) && Schedules(n.nodes, order) && ElectsNodes(n)
    ensures Round(n, order).Some?
    ensures ElectsNodes(Round(n, order).value.net)
  {
    var n1 := Advance(n);
    CollectElections(n1);
    assert Collect(n1).Some?;
    var c := Collect(n1).value;
    CollectReady(n1);
    RoundIsFinish(n, order, c);
    SameRingSchedules(n.nodes, c.nodes, order);
    FinishReady(c, order);
    var o := Finish(c, order).value;
    assert o.net.elect == c.elect && o.net.nodes.Keys == n.nodes.Keys;
  }

  /** What the loop of `start` keeps across one round: a round that succeeds returns to
      the top of the loop with the same ring, one round later, quiescent if it stopped;
      a schedule that lists only nodes makes it succeed and stays so. */
  lemma RoundKeepsLoop(n: NetState, order: seq<nat>)
    requires Ready(n) && Schedules(n.nodes, order)
    ensures Round(n, order).Some? ==>
              var o := Round(n, order).value;
              && o.net.round == n.round + 1
              && Ready(o.net)
              && SameRing(n.nodes, o.net.nodes)
              && Schedules(o.net.nodes, order)
              && (o.ended ==> Quiescent(o.net))
    ensures ElectsNodes(n) ==> Round(n, order).Some? && ElectsNodes(Round(n, order).value.net)
  {
    RoundPreservesReady(n, order);
    if Round(n, order).Some? {
      RoundEnds(n, order);
    }
    if ElectsNodes(n) {
      RoundSucceeds(n, order);
    }
  }

  lemma SameRingSchedules(a: Arena, b: Arena, order: seq<nat>)
    requires SameRing(a, b) && Schedules(a, order)
    ensures Schedules(b, order)
  {
  }

  /** The loop stops after the round exactly when, at its top, every outgoing queue was
      empty and the only election entry left, if any, was an empty one for the round
      about to run; a round that stops leaves the network quiescent and logs nothing. */
  lemma RoundEnds(n: NetState, order: seq<nat>)
    requires Ready(n) && Schedules(n.nodes, order)
    requires Round(n, order).Some?
    ensures Round(n, order).value.ended <==>
              && (forall k :: k in n.nodes ==> n.nodes[k].outgoing == [])
              && (forall r :: r in n.elect ==> r == n.round + 1 && n.elect[r] == [])
    ensures Round(n, order).value.ended ==>
              Quiescent(Round(n, order).value.net) && Round(n, order).value.logged == []
  {
    var n1 := Advance(n);
    assert n1.nodes == n.nodes && n1.elect == n.elect && n1.round == n.round + 1;
    CollectReady(n1);
    if Collect(n1).None? {
      RoundFails(n, order);
      assert false;
    }
    var c := Collect(n1).value;
    RoundIsFinish(n, order, c);
    CollectFinishEnds(n1, c, order);
  }

  /** `RoundEnds` on the network as it is at collection time. */
  lemma CollectFinishEnds(n1: NetState, c: NetState, order: seq<nat>)
    requires n1.toDeliver == map[] && (forall k :: k in n1.nodes ==> n1.nodes[k].incoming == [])
    requires Collect(n1) == Some(c) && Collected(c) && Schedules(c.nodes, order)
    ensures Finish(c, order).Some?
    ensures Finish(c, order).value.ended <==>
              && (forall k :: k in n1.nodes ==> n1.nodes[k].outgoing == [])
              && (forall r :: r in n1.elect ==> r == n1.round && n1.elect[r] == [])
    ensures Finish(c, order).value.ended ==>
              Quiescent(Finish(c, order).value.net) && Finish(c, order).value.logged == []
  {
    assert Finish(c, order).Some? && Finish(c, order).value.ended == ShouldEnd(c) by {
      FinishReady(c, order);
    }
    CollectEnds(n1);
    if ShouldEnd(c) {
      CollectFinishQuiet(n1, c, order);
    }
  }

  lemma CollectFinishQuiet(n1: NetState, c: NetState, order: seq<nat>)
    requires n1.toDeliver == map[] && (forall k :: k in n1.nodes ==> n1.nodes[k].incoming == [])
    requires Collect(n1) == Some(c) && ShouldEnd(c) && Schedules(c.nodes, order)
    ensures Finish(c, order) == Some(RoundResult(c, true, [])) && Quiescent(c)
  {
    CollectEnds(n1);
    FinishIdle(c, order);
  }

  /** Collection at the top of the loop finds nothing to deliver and no election start
      left exactly when every outgoing queue is empty and the only election entry left,
      if any, is an empty one for the current round; then it changes no node. */
  lemma CollectEnds(n: NetState)
    requires n.toDeliver == map[] && Collect(n).Some?
    ensures ShouldEnd(Collect(n).value) <==>
              && (forall k :: k in n.nodes ==> n.nodes[k].outgoing == [])
              && (forall r :: r in n.elect ==> r == n.round && n.elect[r] == [])
    ensures ShouldEnd(Collect(n).value) ==> Collect(n).value == n.(elect := map[])
  {
    if ShouldEnd(Collect(n).value) {
      EndedCollectIdle(n);
    } else if
      && (forall k :: k in n.nodes ==> n.nodes[k].outgoing == [])
      && (forall r :: r in n.elect ==> r == n.round && n.elect[r] == [])
    {
      IdleCollectEnds(n);
    }
  }

  lemma EndedCollectIdle(n: NetState)
    requires n.toDeliver == map[] && Collect(n).Some? && ShouldEnd(Collect(n).value)
    ensures forall k :: k in n.nodes ==> n.nodes[k].outgoing == []
    ensures forall r :: r in n.elect ==> r == n.round && n.elect[r] == []
    ensures Collect(n).value == n.(elect := map[])
  {
    CollectElections(n);
    var c := Collect(n).value;
    assert c.toDeliver == Heads(c.nodes);
    forall k | k in c.nodes
      ensures c.nodes[k].outgoing == []
    {
      assert k !in Heads(c.nodes);
    }
    if Scheduled(n) != [] {
      assert false;
    }
    forall r | r in n.elect
      ensures r == n.round && n.elect[r] == []
    {
      assert r !in c.elect;
    }
  }

  lemma IdleCollectEnds(n: NetState)
    requires n.toDeliver == map[]
    requires forall k :: k in n.nodes ==> n.nodes[k].outgoing == []
    requires forall r :: r in n.elect ==> r == n.round && n.elect[r] == []
    ensures Collect(n) == Some(n.(elect := map[]))
    ensures ShouldEnd(Collect(n).value)
  {
    assert Scheduled(n) == [];
    assert Heads(n.nodes) == map[];
    var rest := n.elect - {n.round};
    assert forall r :: r !in rest;
    assert rest == map[];
  }

  /** A quiescent network stops in the next round without changing anything but the
      round counter. */
  lemma QuiescentEnds(n: NetState, order: seq<nat>)
    requires Ready(n) && Schedules(n.nodes, order) && Quiescent(n)
    ensures Round(n, order) == Some(RoundResult(Advance(n), true, []))
  {
    var n1 := Advance(n);
    IdleCollectEnds(n1);
    assert n1.(elect := map[]) == n1;
    FinishIdle(n1, order);
    RoundIsFinish(n, order, n1);
  }

  /** An election start scheduled for a round that has already passed is never removed,
      so the loop never stops. */
  lemma StaleElectionBlocksEnd(n: NetState, order: seq<nat>, r: int)
    requires Ready(n) && Schedules(n.nodes, order)
    requires r in n.elect && r <= n.round
    requires Round(n, order).Some?
    ensures r in Round(n, order).value.net.elect
    ensures !Round(n, order).value.ended
  {
    var n1 := Advance(n);
    CollectReady(n1);
    if Collect(n1).None? {
      RoundFails(n, order);
      assert false;
    }
    var c := Collect(n1).value;
    RoundIsFinish(n, order, c);
    CollectElections(n1);
    FinishReady(c, order);
  }
}
