/** The node's protocol state machine on values: what one incoming message, one
    `sendMsg` and one batch of the worker loop do to a node's fields. The `Node` class
    in module Nodes is proved to follow these functions. */
module Protocol {
  import opened Codec

  /** `leaderId` before any leader is known. */
  const NoLeader: int := -1

  /** The fields of a `Node`; `next`, `previous` and the neighbours are node ids. */
  datatype NodeState = NodeState(
    id: nat,
    isParticipant: bool,
    isLeader: bool,
    leaderId: int,
    next: Option<nat>,
    previous: Option<nat>,
    neighbours: seq<nat>,
    incoming: seq<string>,
    outgoing: seq<string>)

  /** A freshly constructed node. */
  function Initial(id: nat): NodeState {
    NodeState(id, false, false, NoLeader, None, None, [], [], [])
  }

  /** What a node can still see of a failed neighbour: its ring pointers and whether
      it was the leader. */
  datatype NodeView = NodeView(previous: Option<nat>, next: Option<nat>, isLeader: bool)

  /** The exceptions that end a node's worker: a missing or non-numeric id token; an
      unknown message tag; a failure notice about a node that is not a neighbour, whose
      search result stays `null` and is then dereferenced (a null dereference, or an
      assertion error when the JVM checks assertions); and a failed node whose
      `previous` or `next` is unset. */
  datatype Fatal = BadNumber | InvalidMessageType | NullFailedNode | NullPointer

  /** A transition either yields the new state and the lines it adds to the log, or
      throws before changing anything. */
  datatype Outcome = Ok(state: NodeState, logged: seq<string>) | Crash(fault: Fatal)

  function Max(a: nat, b: nat): nat {
    if a >= b then a else b
  }

  /** `List.remove(Object)`: drop the first element equal to `x`, if there is one. */
  function RemoveFirst<T(==)>(s: seq<T>, x: T): seq<T> {
    if s == [] then []
    else if s[0] == x then s[1..]
    else [s[0]] + RemoveFirst(s[1..], x)
  }

  /** Exactly one copy of `x` goes, if there is one; nothing else changes count. */
  lemma {:induction false} RemoveFirstMultiset<T>(s: seq<T>, x: T)
    ensures multiset(RemoveFirst(s, x)) == multiset(s) - multiset{x}
    ensures x !in s ==> RemoveFirst(s, x) == s
  {
    if s != [] {
      assert s == [s[0]] + s[1..];
      if s[0] != x {
        RemoveFirstMultiset(s[1..], x);
      }
    }
  }

  /** The element removed is the first occurrence: everything before it stays, and so
      does everything after it. */
  lemma {:induction false} RemoveFirstAt<T>(s: seq<T>, x: T, i: nat)
    requires i < |s| && s[i] == x && x !in s[..i]
    ensures RemoveFirst(s, x) == s[..i] + s[i + 1..]
    decreases i
  {
    if i > 0 {
      assert s[0] != x by { assert s[0] == s[..i][0]; }
      assert s[1..][..i - 1] == s[1..i];
      RemoveFirstAt(s[1..], x, i - 1);
      assert s[..i] == [s[0]] + s[1..i];
    }
  }

  function AddIfAbsent(s: seq<nat>, x: nat): (r: seq<nat>) {
    if x in s then s else s + [x]
  }

  /** The line a node writes to the log when it declares itself leader. */
  function LeaderLine(id: nat): string {
    "LEADER " + NatToString(id)
  }

  /** `startElection`: queue an election message carrying the node's own id. */
  function StartElection(s: NodeState): NodeState {
    s.(outgoing := s.outgoing + [Encode(Election(s.id))])
  }

  /** `receiveMsg`: queue an incoming message, without processing it. */
  function Receive(s: NodeState, m: string): NodeState {
    s.(incoming := s.incoming + [m])
  }

  /** The ring repair a node performs on a NEIGHBOUR-FAILURE notice about `f`, whose
      last state is `v`. */
  function Repair(s: NodeState, f: nat, v: NodeView): (r: Outcome)
    ensures r.Ok? ==> r.state.id == s.id && r.state.incoming == s.incoming
    ensures r.Ok? ==> r.state.outgoing == s.outgoing + (if v.isLeader then [Encode(Election(s.id))] else [])
  {
    if f !in s.neighbours then Crash(NullFailedNode)
    else if v.previous.None? || v.next.None? then Crash(NullPointer)
    else
      var p, n := v.previous.value, v.next.value;
      var linked :=
        if s.id == p && s.id == n then s.(next := None, previous := None)
        else if s.id == p then s.(next := Some(n), neighbours := AddIfAbsent(s.neighbours, n))
        else if s.id == n then s.(previous := Some(p), neighbours := AddIfAbsent(s.neighbours, p))
        else s;
      var pruned := linked.(neighbours := RemoveFirst(linked.neighbours, f));
      Ok(if v.isLeader then StartElection(pruned) else pruned, [])
  }

  /** ELECTION c, received as the string `m`: a non-participant joins and queues the
      larger of c and its own id; a participant that sees its own id wins; one that
      sees a larger id forwards `m`; a smaller id is absorbed. */
  function OnElection(s: NodeState, c: nat, m: string): (r: Outcome)
    ensures r.Ok? && r.state.id == s.id && r.state.incoming == s.incoming
    ensures s.outgoing <= r.state.outgoing
  {
    if !s.isParticipant then
      Ok(s.(outgoing := s.outgoing + [Encode(Election(Max(c, s.id)))], isParticipant := true), [])
    else if c == s.id then
      Ok(s.(isLeader := true, leaderId := s.id, outgoing := s.outgoing + [Encode(Leader(s.id))],
            isParticipant := false),
         [LeaderLine(s.id)])
    else if c > s.id then
      Ok(s.(outgoing := s.outgoing + [m]), [])
    else
      Ok(s, [])
  }

  /** LEADER l, received as the string `m`: record l, leave the election, and forward
      `m` unless l is the node's own id. */
  function OnLeader(s: NodeState, l: nat, m: string): (r: Outcome)
    ensures r.Ok? && r.state.id == s.id && r.state.incoming == s.incoming
    ensures s.outgoing <= r.state.outgoing
  {
    Ok(s.(leaderId := l, isParticipant := false,
          outgoing := if s.id != l then s.outgoing + [m] else s.outgoing),
       [])
  }

  /** `processIncomingMessage`: parse `m` and dispatch on its kind; anything that does
      not parse is fatal. `failed` gives the last state of any node a failure notice
      may name. */
  function Process(s: NodeState, m: string, failed: nat -> NodeView): (r: Outcome)
    ensures r.Ok? ==> r.state.id == s.id && r.state.incoming == s.incoming
    ensures r.Ok? ==> s.outgoing <= r.state.outgoing
  {
    match Parse(m)
    case BadToken => Crash(BadNumber)
    case Unrecognised => Crash(InvalidMessageType)
    case Msg(Election(c)) => OnElection(s, c, m)
    case Msg(Leader(l)) => OnLeader(s, l, m)
    case Msg(NeighbourFailure(f)) => Repair(s, f, failed(f))
  }

  /** `m` parses to an ELECTION message. */
  predicate IsElection(m: string) {
    Parse(m).Msg? && Parse(m).msg.Election?
  }

  /** `sendMsg`: the network takes `m`; the node drops its first copy from the outgoing
      queue and becomes a participant if it is an ELECTION message. `None` when parsing
      `m` throws. */
  function Send(s: NodeState, m: string): Option<NodeState> {
    match Parse(m)
    case BadToken => None
    case Msg(Election(_)) => Some(s.(isParticipant := true, outgoing := RemoveFirst(s.outgoing, m)))
    case _ => Some(s.(outgoing := RemoveFirst(s.outgoing, m)))
  }

  /** The messages `ms` processed in order, stopping at the first that throws. */
  function ProcessAll(s: NodeState, ms: seq<string>, failed: nat -> NodeView): (r: Outcome)
    ensures r.Ok? ==> r.state.id == s.id && r.state.incoming == s.incoming
    ensures r.Ok? ==> s.outgoing <= r.state.outgoing
    decreases |ms|
  {
    if ms == [] then Ok(s, [])
    else
      match ProcessAll(s, ms[..|ms| - 1], failed)
      case Crash(e) => Crash(e)
      case Ok(t, log) =>
        match Process(t, ms[|ms| - 1], failed)
        case Crash(e) => Crash(e)
        case Ok(u, more) => Ok(u, log + more)
  }

  /** Processing one more message extends the run over a prefix by one step. */
  lemma ProcessAllStep(s: NodeState, ms: seq<string>, i: nat, failed: nat -> NodeView)
    requires i < |ms|
    requires ProcessAll(s, ms[..i], failed).Ok?
    ensures var prior := ProcessAll(s, ms[..i], failed);
            var step := Process(prior.state, ms[i], failed);
            ProcessAll(s, ms[..i + 1], failed)
              == if step.Ok? then Ok(step.state, prior.logged + step.logged) else step
  {
    assert ms[..i + 1][..i] == ms[..i];
  }

  /** Once a message throws, the rest of the batch is not processed: the whole run
      throws too. */
  lemma {:induction false} ProcessAllCrashSticks(s: NodeState, ms: seq<string>, i: nat, failed: nat -> NodeView)
    requires i <= |ms| && ProcessAll(s, ms[..i], failed).Crash?
    ensures ProcessAll(s, ms, failed) == ProcessAll(s, ms[..i], failed)
    decreases |ms| - i
  {
    if i < |ms| {
      assert ms[..i + 1][..i] == ms[..i];
      ProcessAllCrashSticks(s, ms, i + 1, failed);
    } else {
      assert ms[..i] == ms;
    }
  }

  /** One pass of the worker loop: process every buffered incoming message in arrival
      order, then clear the incoming queue. */
  function Batch(s: NodeState, failed: nat -> NodeView): Outcome {
    match ProcessAll(s, s.incoming, failed)
    case Crash(e) => Crash(e)
    case Ok(t, log) => Ok(t.(incoming := []), log)
  }

  // ---------------------------------------------------------------------------------
  // One incoming message

  /** The log line of a new leader is the wire form of its LEADER message. */
  lemma LeaderLineIsEncoding(id: nat)
    ensures LeaderLine(id) == Encode(Leader(id))
  {
    assert LeaderTag + " " == "LEADER ";
  }

  /** A node that is not yet a participant joins the election, queues ELECTION with
      the larger of the carried id and its own, and leaves the leader fields alone. */
  lemma ElectionJoins(s: NodeState, c: nat, failed: nat -> NodeView)
    requires !s.isParticipant
    ensures Process(s, Encode(Election(c)), failed)
         == Ok(s.(isParticipant := true, outgoing := s.outgoing + [Encode(Election(Max(c, s.id)))]), [])
  {
    ParseEncode(Election(c));
  }

  /** A participant that gets its own id back declares itself leader: it records
      itself as leader, leaves the election, queues LEADER with its id and logs the
      same line once. */
  lemma ElectionWins(s: NodeState, failed: nat -> NodeView)
    requires s.isParticipant
    ensures Process(s, Encode(Election(s.id)), failed)
         == Ok(s.(isLeader := true, leaderId := s.id, isParticipant := false,
                  outgoing := s.outgoing + [Encode(Leader(s.id))]),
               [Encode(Leader(s.id))])
  {
    ParseEncode(Election(s.id));
    LeaderLineIsEncoding(s.id);
  }

  /** A participant forwards a larger carried id unchanged and absorbs a smaller one. */
  lemma ElectionFiltered(s: NodeState, c: nat, failed: nat -> NodeView)
    requires s.isParticipant && c != s.id
    ensures Process(s, Encode(Election(c)), failed)
         == Ok(if c > s.id then s.(outgoing := s.outgoing + [Encode(Election(c))]) else s, [])
  {
    ParseEncode(Election(c));
  }

  /** `x`, if it is an ELECTION message, carries an id of at least `id`. */
  predicate CarriesAtLeast(x: string, id: nat) {
    Parse(x).Msg? && Parse(x).msg.Election? ==> Parse(x).msg.id >= id
  }

  /** Whatever a node receives, every ELECTION message it queues carries an id at
      least its own: weaker candidacies never leave a node. */
  lemma EmittedElectionsDominate(s: NodeState, m: string, failed: nat -> NodeView)
    requires Process(s, m, failed).Ok?
    ensures var out := Process(s, m, failed).state.outgoing;
            forall i :: |s.outgoing| <= i < |out| ==> CarriesAtLeast(out[i], s.id)
  {
    var r := Process(s, m, failed);
    var pm := Parse(m);
    if pm.Msg? && pm.msg.Election? {
      var c := pm.msg.id;
      assert r == OnElection(s, c, m);
      ElectionEmits(s, c, m);
    } else if pm.Msg? && pm.msg.Leader? {
      assert r == OnLeader(s, pm.msg.id, m);
      assert CarriesAtLeast(m, s.id);
      AppendedCarries(s.outgoing, m, s.id);
    } else {
      assert pm.Msg? && pm.msg.NeighbourFailure?;
      var f := pm.msg.id;
      assert r == Repair(s, f, failed(f));
      if failed(f).isLeader {
        ParseEncode(Election(s.id));
        AppendedCarries(s.outgoing, Encode(Election(s.id)), s.id);
      } else {
        assert r.state.outgoing == s.outgoing + [];
      }
    }
  }

  lemma ElectionEmits(s: NodeState, c: nat, m: string)
    requires Parse(m) == Msg(Election(c))
    ensures var out := OnElection(s, c, m).state.outgoing;
            forall i :: |s.outgoing| <= i < |out| ==> CarriesAtLeast(out[i], s.id)
  {
      if !s.isParticipant {
        ParseEncode(Election(Max(c, s.id)));
        AppendedCarries(s.outgoing, Encode(Election(Max(c, s.id))), s.id);
      } else if c == s.id {
        ParseEncode(Leader(s.id));
        AppendedCarries(s.outgoing, Encode(Leader(s.id)), s.id);
      } else if c > s.id {
        AppendedCarries(s.outgoing, m, s.id);
      }
  }

  lemma AppendedCarries(q: seq<string>, x: string, id: nat)
    requires CarriesAtLeast(x, id)
    ensures forall i :: |q| <= i < |q + [x]| ==> CarriesAtLeast((q + [x])[i], id)
  {
  }

  /** On LEADER l a node records l, leaves the election, and forwards the message
      unchanged exactly when l is not its own id. */
  lemma LeaderRecorded(s: NodeState, l: nat, failed: nat -> NodeView)
    ensures Process(s, Encode(Leader(l)), failed)
         == Ok(s.(leaderId := l, isParticipant := false,
                  outgoing := if l != s.id then s.outgoing + [Encode(Leader(l))] else s.outgoing),
               [])
  {
    ParseEncode(Leader(l));
  }

  /** Only the own-id ELECTION of a participant writes to the log, and then one line. */
  lemma LogsOnlyOnWin(s: NodeState, m: string, failed: nat -> NodeView)
    requires Process(s, m, failed).Ok?
    ensures Process(s, m, failed).logged != [] <==> s.isParticipant && Parse(m) == Msg(Election(s.id))
    ensures Process(s, m, failed).logged != [] ==>
              Process(s, m, failed).logged == [LeaderLine(s.id)] && Process(s, m, failed).state.isLeader
  {
  }

  /** A message whose first token is not a known tag is fatal ("invalid message type"). */
  lemma UnknownTagIsFatal(s: NodeState, tag: string, tail: string, failed: nat -> NodeView)
    requires |tag| > 0 && NoWhitespace(tag)
    requires tag != ElectionTag && tag != LeaderTag && tag != FailureTag
    requires tail == [] || IsWhitespace(tail[0])
    ensures Process(s, tag + tail, failed) == Crash(InvalidMessageType)
  {
    UnknownTagUnrecognised(tag, tail);
  }

  /** A failure notice about a node that is not a neighbour, or whose `previous` or
      `next` is unset, is fatal. */
  lemma RepairFaults(s: NodeState, f: nat, failed: nat -> NodeView)
    ensures f !in s.neighbours ==>
              Process(s, Encode(NeighbourFailure(f)), failed) == Crash(NullFailedNode)
    ensures f in s.neighbours && (failed(f).previous.None? || failed(f).next.None?) ==>
              Process(s, Encode(NeighbourFailure(f)), failed) == Crash(NullPointer)
  {
    ParseEncode(NeighbourFailure(f));
  }

  /** Ring repair on the failure of `f`, whose last pointers are (p, n): the node that
      was f's predecessor takes n as its next, the node that was f's successor takes p
      as its previous (each adding the new neighbour if absent), the last survivor
      clears both pointers; the first occurrence of f leaves the neighbour list; and if
      f was the leader a new election is queued. Nothing else changes. */
  lemma RepairBridges(s: NodeState, f: nat, failed: nat -> NodeView)
    requires f in s.neighbours
    requires failed(f).previous.Some? && failed(f).next.Some?
    ensures
      var v := failed(f);
      var p, n := v.previous.value, v.next.value;
      var r := Process(s, Encode(NeighbourFailure(f)), failed);
      var added :=
        if s.id == p && s.id != n then AddIfAbsent(s.neighbours, n)
        else if s.id != p && s.id == n then AddIfAbsent(s.neighbours, p)
        else s.neighbours;
      && r.Ok? && r.logged == []
      && r.state.(next := s.next, previous := s.previous, neighbours := s.neighbours,
                  outgoing := s.outgoing) == s
      && (s.id == p && s.id == n ==> r.state.next == None && r.state.previous == None)
      && (s.id == p && s.id != n ==> r.state.next == Some(n) && r.state.previous == s.previous)
      && (s.id != p && s.id == n ==> r.state.next == s.next && r.state.previous == Some(p))
      && (s.id != p && s.id != n ==> r.state.next == s.next && r.state.previous == s.previous)
      && r.state.neighbours == RemoveFirst(added, f)
      && r.state.outgoing == if v.isLeader then s.outgoing + [Encode(Election(s.id))] else s.outgoing
  {
    ParseEncode(NeighbourFailure(f));
  }

  /** The neighbour list after a repair: the new ring neighbour is in it (unless it is
      the failed node itself), and f is gone if it was listed once. */
  lemma RepairNeighbours(s: NodeState, f: nat, failed: nat -> NodeView)
    requires f in s.neighbours
    requires failed(f).previous.Some? && failed(f).next.Some?
    ensures
      var p, n := failed(f).previous.value, failed(f).next.value;
      var r := Process(s, Encode(NeighbourFailure(f)), failed);
      r.Ok? &&
      var nb := r.state.neighbours;
      && (s.id == p && s.id != n && n != f ==> n in nb)
      && (s.id != p && s.id == n && p != f ==> p in nb)
      && (multiset(s.neighbours)[f] == 1 ==> f !in nb)
  {
    RepairBridges(s, f, failed);
    var p, n := failed(f).previous.value, failed(f).next.value;
    var added: seq<nat> :=
      if s.id == p && s.id != n then AddIfAbsent(s.neighbours, n)
      else if s.id != p && s.id == n then AddIfAbsent(s.neighbours, p)
      else s.neighbours;
    if s.id == p && s.id != n && n != f {
      RemoveFirstKeeps(added, f, n);
    }
    if s.id != p && s.id == n && p != f {
      RemoveFirstKeeps(added, f, p);
    }
    if multiset(s.neighbours)[f] == 1 {
      assert multiset(added)[f] == 1;
      RemoveFirstOnly(added, f);
    }
  }

  lemma RemoveFirstKeeps(a: seq<nat>, f: nat, x: nat)
    requires x in a && x != f
    ensures x in RemoveFirst(a, f)
  {
    RemoveFirstMultiset(a, f);
    assert x in multiset(a);
    assert x in multiset(RemoveFirst(a, f));
  }

  lemma RemoveFirstOnly(a: seq<nat>, f: nat)
    requires multiset(a)[f] == 1
    ensures f !in RemoveFirst(a, f)
  {
    var r: seq<nat> := RemoveFirst(a, f);
    RemoveFirstMultiset(a, f);
    assert multiset(r) == multiset(a) - multiset{f};
    var one: multiset<nat> := multiset{f};
    assert one[f] == 1;
    assert multiset(r)[f] == 0;
  }

  // ---------------------------------------------------------------------------------
  // sendMsg

  /** Sending the head of the outgoing queue removes exactly that head; the node
      becomes a participant if it was an ELECTION message and is otherwise unchanged. */
  lemma SendHead(s: NodeState)
    requires s.outgoing != [] && !Parse(s.outgoing[0]).BadToken?
    ensures var m := s.outgoing[0];
            Send(s, m) == Some(s.(outgoing := s.outgoing[1..], isParticipant := s.isParticipant || IsElection(m)))
  {
    RemoveFirstAt(s.outgoing, s.outgoing[0], 0);
  }

  // ---------------------------------------------------------------------------------
  // The messages that circulate in the network

  /** The wire form of an ELECTION or LEADER message: the only kinds the network ever
      carries. */
  ghost predicate IsToken(m: string) {
    exists id: nat :: m == Encode(Election(id)) || m == Encode(Leader(id))
  }

  /** Such a message parses back to an ELECTION or LEADER message. */
  lemma TokenParses(m: string)
    requires IsToken(m)
    ensures Parse(m).Msg? && !Parse(m).msg.NeighbourFailure?
  {
    var id: nat :| m == Encode(Election(id)) || m == Encode(Leader(id));
    if m == Encode(Election(id)) {
      ParseEncode(Election(id));
    } else {
      ParseEncode(Leader(id));
    }
  }

  ghost predicate AllTokens(q: seq<string>) {
    forall i :: 0 <= i < |q| ==> IsToken(q[i])
  }

  /** Same id and same ring pointers and neighbour list. */
  predicate SameLinks(a: NodeState, b: NodeState) {
    a.id == b.id && a.next == b.next && a.previous == b.previous && a.neighbours == b.neighbours
  }

  /** An ELECTION or LEADER message never fails, never touches the ring pointers, and
      queues only ELECTION and LEADER messages. */
  lemma ProcessToken(s: NodeState, m: string, failed: nat -> NodeView)
    requires IsToken(m) && AllTokens(s.outgoing)
    ensures var r := Process(s, m, failed);
            r.Ok? && SameLinks(r.state, s) && AllTokens(r.state.outgoing)
  {
    TokenParses(m);
    match Parse(m)
    case Msg(Election(c)) =>
      assert IsToken(Encode(Election(Max(c, s.id))));
      assert IsToken(Encode(Leader(s.id)));
    case Msg(Leader(l)) =>
  }

  lemma {:induction false} ProcessAllTokens(s: NodeState, ms: seq<string>, failed: nat -> NodeView)
    requires AllTokens(ms) && AllTokens(s.outgoing)
    ensures var r := ProcessAll(s, ms, failed);
            r.Ok? && SameLinks(r.state, s) && AllTokens(r.state.outgoing)
    decreases |ms|
  {
    if ms != [] {
      ProcessAllTokens(s, ms[..|ms| - 1], failed);
      ProcessToken(ProcessAll(s, ms[..|ms| - 1], failed).state, ms[|ms| - 1], failed);
    }
  }

  /** A worker pass over ELECTION and LEADER messages succeeds, leaves the ring as it
      was and empties the incoming queue. */
  lemma BatchTokens(s: NodeState, failed: nat -> NodeView)
    requires AllTokens(s.incoming) && AllTokens(s.outgoing)
    ensures var r := Batch(s, failed);
            r.Ok? && SameLinks(r.state, s) && r.state.incoming == [] && AllTokens(r.state.outgoing)
  {
    ProcessAllTokens(s, s.incoming, failed);
  }

  /** A worker pass over an empty incoming queue changes nothing. */
  lemma BatchIdle(s: NodeState, failed: nat -> NodeView)
    requires s.incoming == []
    ensures Batch(s, failed) == Ok(s, [])
  {
  }
}
