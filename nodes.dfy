/** The node objects: a `Logger` buffer and the `Node` class whose methods update its
    fields and message queues in place. Every method is proved to do what the value
    functions of module Protocol say. */
module Nodes {
  import opened Codec
  import opened Protocol

  /** The process-wide log buffer. Its lines are written out once at the end of the
      run; that write is not modelled. */
  class Logger {
    var lines: seq<string>

    constructor ()
      ensures lines == []
    {
      lines := [];
    }

    /** `addMessage`: append one line. */
    method AddMessage(message: string)
      modifies this
      ensures lines == old(lines) + [message]
    {
      lines := lines + [message];
    }
  }

  /** A solver hint: associativity of `+` on the log, stated as a lemma rather than
      asserted inline because the inline assertion makes the callers' proofs costlier. */
  lemma AppendAssociates(a: seq<string>, b: seq<string>, c: seq<string>)
    ensures (a + b) + c == a + (b + c)
  {
  }

  class Node {
    const id: nat
    var isParticipant: bool
    var isLeader: bool
    var next: Option<nat>
    var previous: Option<nat>
    var leaderId: int
    var neighbours: seq<nat>
    var incomingMessages: seq<string>
    var outgoingMessages: seq<string>

    /** The node's fields as a value. */
    function State(): NodeState
      reads this
    {
      NodeState(id, isParticipant, isLeader, leaderId, next, previous, neighbours,
                incomingMessages, outgoingMessages)
    }

    constructor (id: nat)
      ensures State() == Initial(id)
    {
      this.id := id;
      isParticipant := false;
      isLeader := false;
      next := None;
      previous := None;
      leaderId := NoLeader;
      neighbours := [];
      incomingMessages := [];
      outgoingMessages := [];
    }

    method SetNext(n: nat)
      modifies this
      ensures State() == old(State()).(next := Some(n))
    {
      next := Some(n);
    }

    method AddNeighbour(n: nat)
      modifies this
      ensures State() == old(State()).(neighbours := old(neighbours) + [n])
    {
      neighbours := neighbours + [n];
    }

    /** `receiveMsg`: queue `m` without processing it. */
    method ReceiveMsg(m: string)
      modifies this
      ensures State() == Receive(old(State()), m)
    {
      incomingMessages := incomingMessages + [m];
    }

    /** `startElection`: queue ELECTION with the node's own id. */
    method StartElection()
      modifies this
      ensures State() == Protocol.StartElection(old(State()))
    {
      outgoingMessages := outgoingMessages + [Encode(Election(id))];
    }

    /** `informNeighbourFailure`: queue a NEIGHBOUR-FAILURE notice about `failedId`
        among the incoming messages. */
    method InformNeighbourFailure(failedId: nat)
      modifies this
      ensures State() == Receive(old(State()), Encode(NeighbourFailure(failedId)))
    {
      incomingMessages := incomingMessages + [Encode(NeighbourFailure(failedId))];
    }

    /** The search of the neighbour list for the failed node: the first position that
        holds `f`, or none. */
    method FindNeighbour(f: nat) returns (found: bool, index: nat)
      ensures found ==> index < |neighbours| && neighbours[index] == f && f !in neighbours[..index]
      ensures !found ==> f !in neighbours
    {
      found, index := false, 0;
      while index < |neighbours|
        invariant index <= |neighbours|
        invariant f !in neighbours[..index]
      {
        if neighbours[index] == f {
          found := true;
          return;
        }
        index := index + 1;
      }
      assert neighbours[..index] == neighbours;
    }

    /** `processIncomingMessage`. `ok` is false when the source throws; it throws
        before changing anything. */
    method ProcessIncomingMessage(m: string, failed: nat -> NodeView, logger: Logger) returns (ok: bool)
      modifies this, logger
      ensures var r := Process(old(State()), m, failed);
              && ok == r.Ok?
              && (ok ==> State() == r.state && logger.lines == old(logger.lines) + r.logged)
              && (!ok ==> State() == old(State()) && logger.lines == old(logger.lines))
    {
      var message := Parse(m);
      match message
      case Msg(Election(c)) =>
        if !isParticipant {
          outgoingMessages := outgoingMessages + [Encode(Election(Max(c, id)))];
          isParticipant := true;
        } else if c == id {
          isLeader := true;
          leaderId := id;
          outgoingMessages := outgoingMessages + [Encode(Leader(id))];
          isParticipant := false;
          logger.AddMessage(LeaderLine(id));
        } else if c > id {
          outgoingMessages := outgoingMessages + [m];
        }
        ok := true;
      case Msg(Leader(l)) =>
        leaderId := l;
        isParticipant := false;
        if id != leaderId {
          outgoingMessages := outgoingMessages + [m];
        }
        ok := true;
      case Msg(NeighbourFailure(f)) =>
        var found, _ := FindNeighbour(f);
        var v := failed(f);
        if !found || v.previous.None? || v.next.None? {
          return false;
        }
        var p, n := v.previous.value, v.next.value;
        if id == p && id == n {
          next := None;
          previous := None;
        } else if id == p {
          next := Some(n);
          if n !in neighbours {
            neighbours := neighbours + [n];
          }
        } else if id == n {
          previous := Some(p);
          if p !in neighbours {
            neighbours := neighbours + [p];
          }
        }
        neighbours := RemoveFirst(neighbours, f);
        if v.isLeader {
          StartElection();
        }
        ok := true;
      case _ =>
        ok := false;
    }

    /** `sendMsg`: the network has taken `m`. `ok` is false when parsing `m` throws. */
    method SendMsg(m: string) returns (ok: bool)
      modifies this
      ensures var r := Send(old(State()), m);
              ok == r.Some? && State() == if ok then r.value else old(State())
    {
      var message := Parse(m);
      if message.BadToken? {
        return false;
      }
      if message.Msg? && message.msg.Election? {
        isParticipant := true;
      }
      outgoingMessages := RemoveFirst(outgoingMessages, m);
      ok := true;
    }

    /** One pass of the worker loop in `run`: process the buffered incoming messages in
        order, then clear them. `ok` is false when a message throws, which ends the
        worker. */
    method RunBatch(failed: nat -> NodeView, logger: Logger) returns (ok: bool)
      modifies this, logger
      ensures var r := Batch(old(State()), failed);
              ok == r.Ok? && (ok ==> State() == r.state && logger.lines == old(logger.lines) + r.logged)
    {
      ghost var start := State();
      ghost var log: seq<string> := [];
      var i := 0;
      while i < |incomingMessages|
        invariant 0 <= i <= |incomingMessages|
        invariant incomingMessages == start.incoming
        invariant ProcessAll(start, incomingMessages[..i], failed) == Ok(State(), log)
        invariant logger.lines == old(logger.lines) + log
      {
        var m := incomingMessages[i];
        ghost var step := Process(State(), m, failed);
        ProcessAllStep(start, incomingMessages, i, failed);
        ok := ProcessIncomingMessage(m, failed, logger);
        if !ok {
          ProcessAllCrashSticks(start, start.incoming, i + 1, failed);
          return;
        }
        AppendAssociates(old(logger.lines), log, step.logged);
        log := log + step.logged;
        i := i + 1;
      }
      assert incomingMessages[..i] == start.incoming;
      if |incomingMessages| > 0 {
        incomingMessages := [];
      }
      ok := true;
    }
  }
}
