/** The `Network` object: the node objects keyed by id, the round counter, the messages
    collected in the current round, the election starts per round and the FAIL records.
    Each method is proved to update the fields as the value functions of modules Rounds
    and Topology say. */
module Simulation {
  import opened Codec
  import opened Protocol
  import opened Nodes
  import opened Rounds
  import opened Topology

  class Network {
    var nodes: map<nat, Node>
    var round: int
    var messagesToDeliver: map<nat, string>
    var electionMessagesPerRound: map<int, seq<nat>>
    var failMessages: seq<nat>
    const logger: Logger

    /** The node objects. */
    ghost function Nodes(): set<Node>
      reads this`nodes
    {
      set k | k in nodes :: nodes[k]
    }

    /** Every node object sits under its own id; so distinct keys hold distinct objects. */
    ghost predicate Valid()
      reads this`nodes
    {
      forall k :: k in nodes ==> nodes[k].id == k
    }

    /** The node objects' fields, keyed by id. */
    function Arena(): Arena
      reads this`nodes, Nodes()
    {
      map k | k in nodes :: nodes[k].State()
    }

    /** The network's fields as a value. */
    ghost function View(): NetState
      reads this, Nodes()
    {
      NetState(Arena(), round, messagesToDeliver, electionMessagesPerRound, failMessages)
    }

    /** `new Network()`: no nodes, round 0, nothing collected or scheduled, an empty
        log. */
    constructor ()
      ensures Valid() && View() == Fresh && logger.lines == []
    {
      nodes := map[];
      round := 0;
      messagesToDeliver := map[];
      electionMessagesPerRound := map[];
      failMessages := [];
      logger := new Logger();
    }

    /** `parseFile` on the records of the input description, from a freshly constructed
        network. */
    method ParseFile(records: seq<Record>)
      requires Valid() && View() == Fresh
      modifies this
      ensures Valid() && View() == Load(records)
      ensures forall k :: k in nodes ==> fresh(nodes[k])
    {
      var first: Node? := null;
      var previous: Node? := null;
      assert nodes.Keys == Arena().Keys;
      var i := 0;
      while i < |records|
        invariant 0 <= i <= |records|
        invariant Valid()
        invariant forall k :: k in nodes ==> fresh(nodes[k])
        invariant Reading(View(), Id(first), Id(previous)) == ReadAll(records[..i])
        invariant previous != null ==> previous.id in nodes && nodes[previous.id] == previous
      {
        assert records[..i + 1][..i] == records[..i];
        match records[i] {
          case Header =>
          case ElectLine(rd, ids) =>
            electionMessagesPerRound := electionMessagesPerRound[rd := ids];
          case FailLine(f) =>
            failMessages := failMessages + [f];
          case NodeLine(m, nbs) =>
            first, previous := ReadNodeLine(m, nbs, first, previous);
        }
        i := i + 1;
      }
      assert records[..i] == records;
    }

    /** The node-line branch of `parseFile`: make the node for main id `m`, make it the
        first node if there is none yet, link the previous main node to it, add its
        neighbours and link it back to the first node. */
    method ReadNodeLine(m: nat, nbs: seq<nat>, first: Node?, previous: Node?) returns (first': Node, mainNode: Node)
      requires Valid()
      requires previous != null ==> previous.id in nodes && nodes[previous.id] == previous
      modifies this`nodes, previous
      ensures Valid() && fresh(mainNode) && nodes == old(nodes)[m := mainNode] && mainNode.id == m
      ensures first' == if first == null then mainNode else first
      ensures Reading(View(), Some(first'.id), Some(m))
                == ReadLine(Reading(old(View()), Id(first), Id(previous)), NodeLine(m, nbs))
    {
      ghost var v0 := View();
      ghost var f := if first == null then m else first.id;
      ghost var ns1 := if previous != null then v0.nodes[previous.id := v0.nodes[previous.id].(next := Some(m))] else v0.nodes;
      ghost var ns2 := ns1[m := Initial(m).(neighbours := nbs, next := Some(f))];
      assert ReadLine(Reading(v0, Id(first), Id(previous)), NodeLine(m, nbs)) == Reading(v0.(nodes := ns2), Some(f), Some(m));
      mainNode := PutNode(m, previous);
      first' := if first == null then mainNode else first;
      ghost var a1 := Arena();
      assert a1 == ns1[m := Initial(m)];
      var j := 0;
      while j < |nbs|
        invariant 0 <= j <= |nbs|
        invariant mainNode.State() == Initial(m).(neighbours := nbs[..j])
        modifies mainNode
      {
        mainNode.AddNeighbour(nbs[j]);
        assert nbs[..j + 1] == nbs[..j] + [nbs[j]];
        j := j + 1;
      }
      assert nbs[..j] == nbs;
      mainNode.SetNext(first'.id);
      forall k | k in nodes
        ensures nodes[k].State() == ns2[k]
      {
        if k != m {
          assert nodes[k] != mainNode;
          assert a1[k] == ns2[k];
        }
      }
      ArenaIs(ns2);
    }

    /** The first node-line step of `parseFile`: put a new node under `m` and link the
        previous main node to it. */
    method PutNode(m: nat, previous: Node?) returns (mainNode: Node)
      requires Valid()
      requires previous != null ==> previous.id in nodes && nodes[previous.id] == previous
      modifies this`nodes, previous
      ensures Valid() && fresh(mainNode) && nodes == old(nodes)[m := mainNode]
      ensures mainNode.State() == Initial(m)
      ensures Arena() ==
                (if previous != null then old(Arena())[previous.id := old(Arena())[previous.id].(next := Some(m))]
                 else old(Arena()))[m := Initial(m)]
    {
      ghost var a0 := Arena();
      mainNode := new Node(m);
      nodes := nodes[m := mainNode];
      if previous != null {
        previous.SetNext(m);
      }
      ghost var a1 := (if previous != null then a0[previous.id := a0[previous.id].(next := Some(m))] else a0)[m := Initial(m)];
      forall k | k in nodes
        ensures nodes[k].State() == a1[k]
      {
        if k != m && (previous == null || k != previous.id) {
          assert nodes[k] != previous;
        }
      }
      ArenaIs(a1);
    }

    /** `addMessage`: collect `m` as the message of node `id`, replacing any message
        collected from it before. */
    method AddMessage(id: nat, m: string)
      modifies this`messagesToDeliver
      ensures messagesToDeliver == old(messagesToDeliver)[id := m]
    {
      messagesToDeliver := messagesToDeliver[id := m];
    }

    /** `collectMessages`. `ok` is false where the source dereferences `null`: a node
        listed to start an election in this round is not a node. */
    method CollectMessages() returns (ok: bool)
      requires Valid()
      modifies this, Nodes()
      ensures nodes == old(nodes)
      ensures ok == Collect(old(View())).Some?
      ensures ok ==> View() == Collect(old(View())).value
    {
      ghost var n0 := View();
      ghost var injected := Inject(n0.nodes, Scheduled(n0));
      ok := true;
      if round in electionMessagesPerRound {
        var ids := electionMessagesPerRound[round];
        ok := StartElections(ids);
        if !ok {
          return;
        }
        electionMessagesPerRound := electionMessagesPerRound - {round};
      } else {
        assert electionMessagesPerRound - {round} == electionMessagesPerRound;
      }
      ghost var ns := injected.value;
      assert Arena() == ns;
      CollectHeads();
      assert View() == n0.(nodes := ns, elect := n0.elect - {n0.round}, toDeliver := n0.toDeliver + Heads(ns));
    }

    /** The election starts of `collectMessages`: every listed node queues `ELECTION`
        with the id it is listed under, in list order. `ok` is false where a listed id is
        not a node. */
    method StartElections(ids: seq<nat>) returns (ok: bool)
      requires Valid()
      modifies Nodes()
      ensures ok == Inject(old(Arena()), ids).Some?
      ensures ok ==> Arena() == Inject(old(Arena()), ids).value
    {
      ghost var a0 := Arena();
      var i := 0;
      while i < |ids|
        invariant 0 <= i <= |ids|
        invariant Inject(a0, ids[..i]) == Some(Arena())
      {
        var x := ids[i];
        assert ids[..i + 1][..i] == ids[..i];
        if x !in nodes {
          InjectDefined(a0, ids[..i]);
          InjectDefined(a0, ids);
          return false;
        }
        ghost var a := Arena();
        var node := nodes[x];
        node.outgoingMessages := node.outgoingMessages + [Encode(Election(x))];
        forall k | k in nodes && k != x
          ensures nodes[k].State() == a[k]
        {
          assert nodes[k] != node;
        }
        ArenaIs(a[x := node.State()]);
        i := i + 1;
      }
      assert ids[..i] == ids;
      ok := true;
    }

    /** The second loop of `collectMessages`: collect the head of every non-empty
        outgoing queue. */
    method CollectHeads()
      requires Valid()
      modifies this`messagesToDeliver
      ensures messagesToDeliver == old(messagesToDeliver) + Heads(Arena())
    {
      ghost var a := Arena();
      var keys := nodes.Keys;
      while keys != {}
        invariant keys <= a.Keys
        invariant messagesToDeliver == old(messagesToDeliver) + HeadsOf(a, a.Keys - keys)
        decreases keys
      {
        var k :| k in keys;
        var node := nodes[k];
        assert node.State() == a[k];
        HeadsOfGrow(a, a.Keys - keys, k);
        if |node.outgoingMessages| > 0 {
          MergeUpdate(old(messagesToDeliver), HeadsOf(a, a.Keys - keys), k, node.outgoingMessages[0]);
          AddMessage(node.id, node.outgoingMessages[0]);
        }
        assert a.Keys - (keys - {k}) == (a.Keys - keys) + {k};
        keys := keys - {k};
      }
      assert a.Keys - keys == a.Keys;
      HeadsOfAll(a);
      assert Arena() == a;
    }

    /** `deliverMessages`. `ok` is false where the source throws (a sender is not a node,
        its message does not parse, or its `next` is unset) and also where a sender's
        `next` is not a key, which the source would hand to a node object outside the
        map; neither that nor a shared `next` arises at the top of the loop. When no two
        senders share a `next`, the nodes end as `Deliver` says. The collected map is
        cleared before the two loops, which read a copy of it. */
    method DeliverMessages() returns (ok: bool)
      requires Valid()
      modifies this`messagesToDeliver, Nodes()
      ensures messagesToDeliver == map[]
      ensures ok == SendersReady(old(View()))
      ensures ok && DeliverReady(old(View())) ==> View() == Deliver(old(View()))
    {
      ghost var n0 := View();
      var collected := messagesToDeliver;
      messagesToDeliver := map[];
      assert Arena() == n0.nodes;
      ok := SendCollected(collected);
      if !ok {
        assert !SendersReady(n0);
        return;
      }
      ghost var s := Arena();
      SendAllLinks(n0.nodes, collected);
      SentReady(n0, s);
      ok := ReceiveCollected(collected);
    }

    /** The first loop of `deliverMessages`: every sender takes its collected message off
        its outgoing queue. `ok` is false where a sender is not a node or its message
        does not parse. */
    method SendCollected(td: map<nat, string>) returns (ok: bool)
      requires Valid()
      modifies Nodes()
      ensures ok == Sendable(old(Arena()), td)
      ensures ok ==> Arena() == SendAll(old(Arena()), td)
    {
      ghost var a0 := Arena();
      var keys := td.Keys;
      while keys != {}
        invariant keys <= td.Keys
        invariant forall j :: j in td && j !in keys ==> j in nodes && !Parse(td[j]).BadToken?
        invariant Arena() == SendAll(a0, Restrict(td, td.Keys - keys))
        decreases keys
      {
        var k :| k in keys;
        if k !in nodes {
          return false;
        }
        ghost var done := td.Keys - keys;
        SendAllUntouched(a0, td, done, k);
        ok := SendOne(k, td[k]);
        if !ok {
          return;
        }
        SendAllGrow(a0, td, done, k);
        assert td.Keys - (keys - {k}) == (td.Keys - keys) + {k};
        keys := keys - {k};
      }
      assert Restrict(td, td.Keys - keys) == td;
      ok := true;
    }

    /** `sendMsg` on the node with id `k`; no other node changes. */
    method SendOne(k: nat, m: string) returns (ok: bool)
      requires Valid() && k in nodes
      modifies nodes[k]
      ensures ok == !Parse(m).BadToken?
      ensures ok ==> Arena() == old(Arena())[k := Send(old(Arena())[k], m).value]
    {
      ghost var a := Arena();
      var node := nodes[k];
      ok := node.SendMsg(m);
      if ok {
        forall j | j in nodes && j != k
          ensures nodes[j].State() == a[j]
        {
          assert nodes[j] != node;
        }
        ArenaIs(a[k := node.State()]);
      }
    }

    /** The second loop of `deliverMessages`: every collected message is appended to the
        incoming queue of its sender's `next`. `ok` is false where a sender is not a node
        or its `next` is unset or not a node. */
    method ReceiveCollected(td: map<nat, string>) returns (ok: bool)
      requires Valid()
      modifies Nodes()
      ensures SameRing(old(Arena()), Arena())
      ensures ok == Linked(old(Arena()), td)
      ensures ok && Injective(old(Arena()), td) ==> Arena() == ReceiveAll(old(Arena()), td)
    {
      ghost var a0 := Arena();
      ReceiveNothing(a0, td);
      var keys := td.Keys;
      while keys != {}
        invariant Receiving(a0, td, keys, Arena())
        decreases keys
      {
        var k :| k in keys;
        ok := ReceiveFrom(td, k, a0, keys);
        if !ok {
          assert k in td;
          return;
        }
        keys := keys - {k};
      }
      ReceivingDone(a0, td, keys, Arena());
      ok := true;
    }

    /** One pass of the second loop of `deliverMessages`: the message collected from `k`
        is appended to the incoming queue of `k`'s `next`. */
    method ReceiveFrom(td: map<nat, string>, k: nat, ghost a0: Arena, ghost keys: set<nat>) returns (linked: bool)
      requires Valid() && Receiving(a0, td, keys, Arena()) && k in keys
      modifies Nodes()
      ensures linked == (k in a0 && a0[k].next.Some? && a0[k].next.value in a0)
      ensures linked ==> Receiving(a0, td, keys - {k}, Arena())
      ensures !linked ==> Arena() == old(Arena())
    {
      ghost var cur := Arena();
      var x;
      linked, x := NextOf(k);
      assert Arena() == cur;
      assert k in cur ==> cur[k].next == a0[k].next;
      if linked {
        ReceiveOne(x, td[k]);
        ReceiveStep(a0, td, keys, k, cur);
      }
    }

    /** `nodes.get(k).getNext()`, where both lookups find a node. */
    method NextOf(k: nat) returns (linked: bool, x: nat)
      ensures linked == (k in Arena() && Arena()[k].next.Some? && Arena()[k].next.value in Arena())
      ensures linked ==> x == Arena()[k].next.value
    {
      if k !in nodes {
        return false, 0;
      }
      var next := nodes[k].next;
      if next.None? || next.value !in nodes {
        return false, 0;
      }
      linked, x := true, next.value;
    }

    /** `receiveMsg` on the node with id `x`; no other node changes. */
    method ReceiveOne(x: nat, m: string)
      requires Valid() && x in nodes
      modifies nodes[x]
      ensures Arena() == old(Arena())[x := Receive(old(Arena())[x], m)]
    {
      ghost var a := Arena();
      var node := nodes[x];
      node.ReceiveMsg(m);
      forall j | j in nodes && j != x
        ensures nodes[j].State() == a[j]
      {
        assert nodes[j] != node;
      }
      ArenaIs(a[x := node.State()]);
    }

    /** One pass of every worker thread, in the order `order`: each node processes the
        messages it has received and clears its incoming queue. A worker reads a failed
        neighbour's fields as they were when the passes began. `ok` is false where a
        listed id is not a node or a worker throws. */
    method RunWorkers(order: seq<nat>) returns (ok: bool)
      requires Valid()
      modifies Nodes(), logger
      ensures var r := RunAll(old(Arena()), order, FailureView(old(Arena())));
              && ok == r.Some?
              && (ok ==> Arena() == r.value.nodes && logger.lines == old(logger.lines) + r.value.logged)
    {
      ghost var a0 := Arena();
      var failed := FailureView(Arena());
      ghost var log: seq<string> := [];
      var i := 0;
      while i < |order|
        invariant 0 <= i <= |order|
        invariant RunAll(a0, order[..i], failed) == Some(Workers(Arena(), log))
        invariant logger.lines == old(logger.lines) + log
      {
        assert order[..i + 1][..i] == order[..i];
        var k := order[i];
        if k !in nodes {
          RunAllStuck(a0, order, i + 1, failed);
          return false;
        }
        ghost var step := Batch(Arena()[k], failed);
        ok := RunOne(k, failed);
        if !ok {
          RunAllStuck(a0, order, i + 1, failed);
          return;
        }
        AppendAssociates(old(logger.lines), log, step.logged);
        log := log + step.logged;
        i := i + 1;
      }
      assert order[..i] == order;
      ok := true;
    }

    /** The worker pass of the node with id `k`; no other node changes. */
    method RunOne(k: nat, failed: nat -> NodeView) returns (ok: bool)
      requires Valid() && k in nodes
      modifies nodes[k], logger
      ensures var r := Batch(old(Arena())[k], failed);
              && ok == r.Ok?
              && (ok ==> Arena() == old(Arena())[k := r.state] && logger.lines == old(logger.lines) + r.logged)
    {
      ghost var a := Arena();
      var node := nodes[k];
      ok := node.RunBatch(failed, logger);
      if ok {
        forall j | j in nodes && j != k
          ensures nodes[j].State() == a[j]
        {
          assert nodes[j] != node;
        }
        ArenaIs(a[k := node.State()]);
      }
    }

    /** One iteration of the loop in `start`: advance the round, collect, take the stop
        test, deliver, and let every worker process what it received. From the top of
        the loop the round fails only where collection dereferences `null`. */
    method Step(order: seq<nat>) returns (ok: bool, ended: bool)
      requires Valid() && Ready(View()) && Schedules(Arena(), order)
      modifies this, Nodes(), logger
      ensures nodes == old(nodes)
      ensures ok == Round(old(View()), order).Some?
      ensures ok ==> var o := Round(old(View()), order).value;
                     && View() == o.net && ended == o.ended
                     && logger.lines == old(logger.lines) + o.logged
    {
      ghost var n := View();
      ended := false;
      NextRound();
      ok := CollectMessages();
      RoundCollects(n, order);
      if !ok {
        return;
      }
      ok, ended := FinishRound(order);
    }

    /** `round++`. */
    method NextRound()
      modifies this`round
      ensures View() == Advance(old(View()))
    {
      round := round + 1;
    }

    /** The rest of the round after collection: take the stop test, deliver, and let
        every worker process what it received. From a collected network none of it
        throws. */
    method FinishRound(order: seq<nat>) returns (ok: bool, ended: bool)
      requires Valid() && DeliverReady(View())
      modifies this`messagesToDeliver, Nodes(), logger
      ensures ok == Finish(old(View()), order).Some?
      ensures ok ==> var o := Finish(old(View()), order).value;
                     && View() == o.net && ended == o.ended
                     && logger.lines == old(logger.lines) + o.logged
    {
      ghost var c := View();
      ghost var frame := Nodes();
      ended := |messagesToDeliver| == 0 && |electionMessagesPerRound| == 0;
      assert ended == ShouldEnd(c);
      var delivered := DeliverMessages();
      assert Nodes() == frame;
      ghost var d := View();
      FinishIs(c, d, order);
      ghost var log0 := logger.lines;
      ok := RunWorkers(order);
      if ok {
        ghost var w := RunAll(d.nodes, order, FailureView(d.nodes)).value;
        assert View() == d.(nodes := w.nodes);
        assert logger.lines == log0 + w.logged;
      }
    }

    /** The loop of `start`, run for at most `fuel` rounds: each round keeps the network
        at the top of the loop with the ring it started with, and the loop stops at a
        quiescent network. A round fails only where collection dereferences `null`, so a
        run whose election schedule lists only nodes never fails. */
    method Run(order: seq<nat>, fuel: nat) returns (ok: bool, ended: bool)
      requires Valid() && Ready(View()) && Schedules(Arena(), order)
      modifies this, Nodes(), logger
      ensures nodes == old(nodes)
      ensures ok ==> Ready(View()) && SameRing(old(Arena()), Arena())
      ensures ok ==> old(round) <= round <= old(round) + fuel && (ended || round == old(round) + fuel)
      ensures ok && ended ==> Quiescent(View())
      ensures ElectsNodes(old(View())) ==> ok
    {
      ghost var a0 := Arena();
      ok, ended := true, false;
      var count := 0;
      while !ended && count < fuel
        invariant nodes == old(nodes) && Valid()
        invariant Ready(View()) && SameRing(a0, Arena()) && Schedules(Arena(), order)
        invariant 0 <= count <= fuel && round == old(round) + count
        invariant ended ==> Quiescent(View())
        invariant ElectsNodes(old(View())) ==> ElectsNodes(View())
      {
        ghost var n := View();
        RoundKeepsLoop(n, order);
        ok, ended := Step(order);
        if !ok {
          return;
        }
        ghost var o := Round(n, order).value;
        assert View() == o.net && ended == o.ended;
        SameRingTrans(a0, n.nodes, o.net.nodes);
        count := count + 1;
      }
    }

    /** `start`: read the description, then run the rounds. With distinct main ids the
        ring read from the description never changes and a stop leaves the network
        quiescent; when moreover every ELECT line lists only main ids, no round fails. */
    method Start(records: seq<Record>, order: seq<nat>, fuel: nat) returns (ok: bool, ended: bool)
      requires Valid() && View() == Fresh
      requires Distinct(Mains(records)) && Schedules(Load(records).nodes, order)
      modifies this, logger
      ensures ok ==> Ready(View()) && SameRing(Load(records).nodes, Arena())
      ensures ok ==> round <= fuel && (ended || round == fuel)
      ensures ok && ended ==> Quiescent(View())
      ensures ElectsMains(records) ==> ok
    {
      ParseFile(records);
      LoadReady(records);
      LoadSchedule(records);
      if ElectsMains(records) {
        LoadElectsNodes(records);
      }
      ok, ended := Run(order, fuel);
    }

    /** The arena is `a` when every node's fields are as `a` records them. */
    lemma ArenaIs(a: Arena)
      requires nodes.Keys == a.Keys
      requires forall k :: k in nodes ==> nodes[k].State() == a[k]
      ensures Arena() == a
    {
    }
  }

  /** The entries of `td` whose keys are in `ks`. */
  function Restrict(td: map<nat, string>, ks: set<nat>): map<nat, string> {
    map k | k in td && k in ks :: td[k]
  }

  /** No two senders of `td` share a `next`. */
  predicate Injective(ns: Arena, td: map<nat, string>) {
    forall a, b :: a in td && b in td && a in ns && b in ns && a != b ==> ns[a].next != ns[b].next
  }

  /** A sender not yet sent from still holds its old fields. */
  lemma SendAllUntouched(ns: Arena, td: map<nat, string>, ks: set<nat>, k: nat)
    requires forall j :: j in td && j in ks && j in ns ==> !Parse(td[j]).BadToken?
    requires k in ns && k !in ks
    ensures SendAll(ns, Restrict(td, ks))[k] == ns[k]
  {
  }

  /** Sending from one more sender updates exactly that sender. */
  lemma SendAllGrow(ns: Arena, td: map<nat, string>, ks: set<nat>, k: nat)
    requires forall j :: j in td && j in ks && j in ns ==> !Parse(td[j]).BadToken?
    requires k in td && k in ns && k !in ks && !Parse(td[k]).BadToken?
    ensures SendAll(ns, Restrict(td, ks + {k})) == SendAll(ns, Restrict(td, ks))[k := Send(ns[k], td[k]).value]
  {
  }

  /** Sending changes no ring pointer. */
  lemma SendAllLinks(ns: Arena, td: map<nat, string>)
    requires forall k :: k in td && k in ns ==> !Parse(td[k]).BadToken?
    ensures SameRing(ns, SendAll(ns, td))
  {
  }

  /** Delivering one more sender's message appends it to its `next`'s incoming queue
      and changes nothing else. */
  lemma ReceiveAllGrow(ns: Arena, td: map<nat, string>, ks: set<nat>, k: nat)
    requires Injective(ns, td)
    requires k in td && k in ns && k !in ks && ns[k].next.Some? && ns[k].next.value in ns
    ensures var r := ReceiveAll(ns, Restrict(td, ks));
            var n := ns[k].next.value;
            ReceiveAll(ns, Restrict(td, ks + {k})) == r[n := Receive(r[n], td[k])]
  {
    var r, r' := Restrict(td, ks), Restrict(td, ks + {k});
    var n := ns[k].next.value;
    var before, after := ReceiveAll(ns, r), ReceiveAll(ns, r');
    forall m | m in ns
      ensures after[m] == before[n := Receive(before[n], td[k])][m]
    {
      InboundStep(ns, td, ks, k, m);
    }
  }

  /** A round is its collection followed by the rest of the round, which delivery can
      handle. */
  lemma RoundCollects(n: NetState, order: seq<nat>)
    requires Ready(n) && Schedules(n.nodes, order)
    ensures var c := Collect(Advance(n));
            && (c.None? ==> Round(n, order).None?)
            && (c.Some? ==> DeliverReady(c.value) && Round(n, order) == Finish(c.value, order))
  {
    var n1 := Advance(n);
    CollectReady(n1);
    if Collect(n1).Some? {
      RoundIsFinish(n, order, Collect(n1).value);
    } else {
      RoundFails(n, order);
    }
  }

  /** The rest of a round, from the delivered network `d`. */
  lemma FinishIs(c: NetState, d: NetState, order: seq<nat>)
    requires DeliverReady(c) && d == Deliver(c)
    ensures Finish(c, order).Some? == RunAll(d.nodes, order, FailureView(d.nodes)).Some?
    ensures Finish(c, order).Some? ==>
              var w := RunAll(d.nodes, order, FailureView(d.nodes)).value;
              Finish(c, order).value == RoundResult(d.(nodes := w.nodes), ShouldEnd(c), w.logged)
  {
  }

  /** A worker pass that fails stays failed whatever passes follow it. */
  lemma {:induction false} RunAllStuck(ns: Arena, order: seq<nat>, i: nat, failed: nat -> NodeView)
    requires i <= |order| && RunAll(ns, order[..i], failed).None?
    ensures RunAll(ns, order, failed).None?
    decreases |order| - i
  {
    if i < |order| {
      assert order[..i + 1][..i] == order[..i];
      RunAllStuck(ns, order, i + 1, failed);
    } else {
      assert order[..i] == order;
    }
  }

  /** Every sender of `td` is a node and its message parses. */
  predicate Sendable(ns: Arena, td: map<nat, string>) {
    forall k :: k in td ==> k in ns && !Parse(td[k]).BadToken?
  }

  /** Every sender of `td` is a node whose `next` is a node. */
  predicate Linked(ns: Arena, td: map<nat, string>) {
    forall k :: k in td ==> k in ns && ns[k].next.Some? && ns[k].next.value in ns
  }

  /** The pure state of the second delivery loop: `cur` is the arena once the senders
      outside `keys` have delivered. */
  ghost predicate Receiving(a0: Arena, td: map<nat, string>, keys: set<nat>, cur: Arena) {
    && keys <= td.Keys
    && SameRing(a0, cur)
    && (forall j :: j in td && j !in keys ==> j in a0 && a0[j].next.Some? && a0[j].next.value in a0)
    && (Injective(a0, td) ==> cur == ReceiveAll(a0, Restrict(td, td.Keys - keys)))
  }

  lemma ReceiveStep(a0: Arena, td: map<nat, string>, keys: set<nat>, k: nat, cur: Arena)
    requires Receiving(a0, td, keys, cur) && k in keys
    requires k in a0 && a0[k].next.Some? && a0[k].next.value in a0
    ensures var n := a0[k].next.value;
            Receiving(a0, td, keys - {k}, cur[n := Receive(cur[n], td[k])])
  {
    var n := a0[k].next.value;
    ReceiveKeepsRing(a0, cur, n, td[k]);
    assert td.Keys - (keys - {k}) == (td.Keys - keys) + {k};
    if Injective(a0, td) {
      ReceiveAllGrow(a0, td, td.Keys - keys, k);
    }
  }

  lemma ReceivingDone(a0: Arena, td: map<nat, string>, keys: set<nat>, cur: Arena)
    requires Receiving(a0, td, keys, cur) && keys == {}
    ensures SameRing(a0, cur) && Linked(a0, td)
    ensures Injective(a0, td) ==> cur == ReceiveAll(a0, td)
  {
    assert Restrict(td, td.Keys - keys) == td;
  }

  /** Delivering nothing changes nothing. */
  lemma ReceiveNothing(ns: Arena, td: map<nat, string>)
    ensures ReceiveAll(ns, Restrict(td, {})) == ns
  {
    assert Restrict(td, {}) == map[];
    assert forall k :: k in ns ==> ReceiveAll(ns, map[])[k] == ns[k];
  }

  /** Appending to an incoming queue changes no ring pointer. */
  lemma ReceiveKeepsRing(a0: Arena, a: Arena, x: nat, m: string)
    requires SameRing(a0, a) && x in a
    ensures SameRing(a0, a[x := Receive(a[x], m)])
  {
  }

  /** After sending, delivery throws exactly where `SendersReady` fails. */
  lemma SentReady(n: NetState, s: Arena)
    requires Sendable(n.nodes, n.toDeliver) && SameRing(n.nodes, s)
    ensures SendersReady(n) <==> Linked(s, n.toDeliver)
    ensures DeliverReady(n) ==> Injective(s, n.toDeliver)
  {
    assert forall k :: k in n.nodes ==> n.nodes[k].next == s[k].next;
  }

  lemma InboundStep(ns: Arena, td: map<nat, string>, ks: set<nat>, k: nat, m: nat)
    requires Injective(ns, td)
    requires k in td && k in ns && k !in ks && ns[k].next.Some?
    ensures Inbound(ns, Restrict(td, ks + {k}), m)
              == Inbound(ns, Restrict(td, ks), m) + (if m == ns[k].next.value then [td[k]] else [])
  {
    var r, r' := Restrict(td, ks), Restrict(td, ks + {k});
    if Inbound(ns, r, m) != [] {
      var j := InboundSender(ns, r, m);
      InboundOfNext(ns, r', j);
    } else if m == ns[k].next.value {
      InboundOfNext(ns, r', k);
    }
  }

  /** The heads of the non-empty outgoing queues of the nodes in `ks`. */
  function HeadsOf(ns: Arena, ks: set<nat>): map<nat, string> {
    map k | k in ks && k in ns && ns[k].outgoing != [] :: ns[k].outgoing[0]
  }

  lemma HeadsOfGrow(ns: Arena, ks: set<nat>, k: nat)
    requires k in ns
    ensures HeadsOf(ns, ks + {k}) ==
              if ns[k].outgoing != [] then HeadsOf(ns, ks)[k := ns[k].outgoing[0]] else HeadsOf(ns, ks)
  {
  }

  /** A solver hint: an identity on maps, stated as a lemma to keep `CollectHeads` small. */
  lemma MergeUpdate(m: map<nat, string>, h: map<nat, string>, k: nat, v: string)
    ensures (m + h)[k := v] == m + h[k := v]
  {
  }

  lemma HeadsOfAll(ns: Arena)
    ensures HeadsOf(ns, ns.Keys) == Heads(ns)
  {
  }

  /** The id of a node object, `None` for `null`. */
  function Id(n: Node?): Option<nat> {
    if n == null then None else Some(n.id)
  }

}
