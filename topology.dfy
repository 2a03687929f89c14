/** The network as `parseFile` builds it from the records of the input description:
    one node per main id, linked into a ring in the order the node lines come, with the
    election starts keyed by round and the FAIL ids in order. Reading the file and
    splitting it into records is not part of this model. */
module Topology {
  import opened Codec
  import opened Protocol
  import opened Rounds

  /** One line of the input description, already split into tokens. */
  datatype Record =
    | Header
    | NodeLine(main: nat, neighbours: seq<nat>)
    | ElectLine(round: int, ids: seq<nat>)
    | FailLine(failed: nat)

  /** What `parseFile` holds between two lines: the network so far, and the ids of the
      `first` and `previous` main nodes. */
  datatype Reading = Reading(net: NetState, first: Option<nat>, previous: Option<nat>)

  /** The freshly constructed network: no nodes, round 0, nothing scheduled. */
  const Fresh: NetState := NetState(map[], 0, map[], map[], [])

  /** One line of `parseFile`. A node line makes a new node for its main id, links the
      previous main node to it, records its neighbours and links it back to the first
      main node; an ELECT line replaces the schedule of its round; a FAIL line is queued. */
  function ReadLine(p: Reading, r: Record): Reading
    requires p.previous.Some? ==> p.previous.value in p.net.nodes
  {
    match r
    case Header => p
    case ElectLine(rd, ids) => p.(net := p.net.(elect := p.net.elect[rd := ids]))
    case FailLine(f) => p.(net := p.net.(fails := p.net.fails + [f]))
    case NodeLine(m, nbs) =>
      var first := if p.first.None? then Some(m) else p.first;
      var ns0 := p.net.nodes;
      var ns1 := if p.previous.Some? then ns0[p.previous.value := ns0[p.previous.value].(next := Some(m))] else ns0;
      var ns2 := ns1[m := Initial(m).(neighbours := nbs, next := first)];
      Reading(p.net.(nodes := ns2), first, Some(m))
  }

  /** `parseFile` over a sequence of records, from the freshly constructed network. */
  function ReadAll(rs: seq<Record>): (p: Reading)
    ensures p.previous.Some? ==> p.previous.value in p.net.nodes
    decreases |rs|
  {
    if rs == [] then Reading(Fresh, None, None)
    else ReadLine(ReadAll(rs[..|rs| - 1]), rs[|rs| - 1])
  }

  function Load(rs: seq<Record>): NetState {
    ReadAll(rs).net
  }

  /** The main ids of the node lines, in order. */
  function Mains(rs: seq<Record>): seq<nat>
    decreases |rs|
  {
    if rs == [] then []
    else Mains(rs[..|rs| - 1]) + (if rs[|rs| - 1].NodeLine? then [rs[|rs| - 1].main] else [])
  }

  predicate Distinct(s: seq<nat>) {
    forall i, j :: 0 <= i < j < |s| ==> s[i] != s[j]
  }

  /** The successor of position `i` on a ring of `n` positions. */
  function Succ(i: nat, n: nat): nat
    requires i < n
  {
    if i + 1 == n then 0 else i + 1
  }

  /** The ring in `ns` follows `ms`: the keys are exactly the ids in `ms`, and each one's
      `next` is the following id, the last one's the first. */
  ghost predicate RingOf(ns: Arena, ms: seq<nat>) {
    && (forall k :: k in ns <==> k in ms)
    && forall i {:trigger ns[ms[i]]} :: 0 <= i < |ms| ==> ns[ms[i]].next == Some(ms[Succ(i, |ms|)])
  }

  /** After reading the records, with distinct main ids, the `first` and `previous` ids
      are the first and the last main ids and the nodes form the ring in the order of the
      node lines. */
  lemma {:induction false} ReadAllRing(rs: seq<Record>)
    requires Distinct(Mains(rs))
    ensures var p, ms := ReadAll(rs), Mains(rs);
            && RingOf(p.net.nodes, ms)
            && (ms == [] ==> p.first.None? && p.previous.None?)
            && (ms != [] ==> p.first == Some(ms[0]) && p.previous == Some(ms[|ms| - 1]))
    decreases |rs|
  {
    if rs != [] {
      var init, r := rs[..|rs| - 1], rs[|rs| - 1];
      var p, ms0 := ReadAll(init), Mains(init);
      assert Distinct(ms0) by {
        assert forall i :: 0 <= i < |ms0| ==> Mains(rs)[i] == ms0[i];
      }
      ReadAllRing(init);
      if r.NodeLine? {
        assert Mains(rs) == ms0 + [r.main];
        RingGrows(p, ms0, r.main, r.neighbours);
      } else {
        assert Mains(rs) == ms0;
        OtherLineKeepsRing(p, r);
      }
    }
  }

  /** Lines other than node lines leave the nodes, `first` and `previous` alone. */
  lemma OtherLineKeepsRing(p: Reading, r: Record)
    requires p.previous.Some? ==> p.previous.value in p.net.nodes
    requires !r.NodeLine?
    ensures var q := ReadLine(p, r);
            q.net.nodes == p.net.nodes && q.first == p.first && q.previous == p.previous
  {
  }

  /** The step of `ReadAllRing` for one node line with a new main id `m`. */
  lemma RingGrows(p: Reading, ms: seq<nat>, m: nat, nbs: seq<nat>)
    requires p.previous.Some? ==> p.previous.value in p.net.nodes
    requires RingOf(p.net.nodes, ms) && Distinct(ms + [m])
    requires ms == [] ==> p.first.None? && p.previous.None?
    requires ms != [] ==> p.first == Some(ms[0]) && p.previous == Some(ms[|ms| - 1])
    ensures var q := ReadLine(p, NodeLine(m, nbs));
            && RingOf(q.net.nodes, ms + [m])
            && q.first == Some((ms + [m])[0]) && q.previous == Some(m)
  {
    var q := ReadLine(p, NodeLine(m, nbs));
    var ms' := ms + [m];
    var ns0, ns := p.net.nodes, q.net.nodes;
    assert ms'[|ms|] == m;
    assert forall i :: 0 <= i < |ms| ==> ms'[i] == ms[i];
    assert m !in ms by {
      forall i | 0 <= i < |ms|
        ensures ms[i] != m
      {
        assert ms'[i] == ms[i];
      }
    }
    if ms == [] {
      assert ns == map[m := Initial(m).(neighbours := nbs, next := Some(m))];
    } else {
      var last := |ms| - 1;
      forall i | 0 <= i < |ms'|
        ensures ns[ms'[i]].next == Some(ms'[Succ(i, |ms'|)])
      {
        if i < last {
          assert ms[i] != ms[last] by { assert ms'[i] != ms'[last]; }
          assert Succ(i, |ms|) == i + 1;
        }
      }
    }
  }

  /** Only node lines touch the nodes, and the nodes they make start with empty queues,
      no leader and no participation; `previous` is never set. */
  predicate Pristine(s: NodeState) {
    && !s.isParticipant && !s.isLeader && s.leaderId == NoLeader
    && s.previous.None? && s.incoming == [] && s.outgoing == []
  }

  lemma {:induction false} ReadAllPristine(rs: seq<Record>)
    ensures var ns := ReadAll(rs).net.nodes;
            Keyed(ns) && forall k :: k in ns ==> Pristine(ns[k])
    decreases |rs|
  {
    if rs != [] {
      ReadAllPristine(rs[..|rs| - 1]);
    }
  }

  /** ELECT lines: a round is scheduled iff some ELECT line names it, and then with the
      ids of the last such line. */
  function LastElect(rs: seq<Record>, rd: int): Option<seq<nat>>
    decreases |rs|
  {
    if rs == [] then None
    else if rs[|rs| - 1].ElectLine? && rs[|rs| - 1].round == rd then Some(rs[|rs| - 1].ids)
    else LastElect(rs[..|rs| - 1], rd)
  }

  /** The ids of the FAIL lines, in order. */
  function FailIds(rs: seq<Record>): seq<nat>
    decreases |rs|
  {
    if rs == [] then []
    else FailIds(rs[..|rs| - 1]) + (if rs[|rs| - 1].FailLine? then [rs[|rs| - 1].failed] else [])
  }

  lemma {:induction false} LoadSchedule(rs: seq<Record>)
    ensures var n := Load(rs);
            && n.round == 0 && n.toDeliver == map[]
            && n.fails == FailIds(rs)
            && forall rd :: (rd in n.elect <==> LastElect(rs, rd).Some?)
                            && (rd in n.elect ==> n.elect[rd] == LastElect(rs, rd).value)
    decreases |rs|
  {
    if rs != [] {
      LoadSchedule(rs[..|rs| - 1]);
    }
  }

  /** Every id an ELECT line lists is the main id of some node line. */
  predicate ElectsMains(rs: seq<Record>) {
    forall i, j :: 0 <= i < |rs| && rs[i].ElectLine? && 0 <= j < |rs[i].ids| ==> rs[i].ids[j] in Mains(rs)
  }

  /** The schedule of a round is the id list of one of the ELECT lines. */
  lemma {:induction false} LastElectIsLine(rs: seq<Record>, rd: int) returns (i: nat)
    requires LastElect(rs, rd).Some?
    ensures i < |rs| && rs[i].ElectLine? && rs[i].ids == LastElect(rs, rd).value
    decreases |rs|
  {
    if rs[|rs| - 1].ElectLine? && rs[|rs| - 1].round == rd {
      i := |rs| - 1;
    } else {
      i := LastElectIsLine(rs[..|rs| - 1], rd);
    }
  }

  /** With distinct main ids, when the ELECT lines list only main ids the loaded
      schedule lists only nodes, so no round's collection dereferences `null`. */
  lemma LoadElectsNodes(rs: seq<Record>)
    requires Distinct(Mains(rs)) && ElectsMains(rs)
    ensures ElectsNodes(Load(rs))
  {
    var n := Load(rs);
    ReadAllRing(rs);
    LoadSchedule(rs);
    forall r, j | r in n.elect && 0 <= j < |n.elect[r]|
      ensures n.elect[r][j] in n.nodes
    {
      var i := LastElectIsLine(rs, r);
      assert rs[i].ids[j] in Mains(rs);
    }
  }

  /** With distinct main ids the loaded network is at the top of the round loop: keyed by
      id, linked into one ring whose `next` pointers are a permutation of the nodes, with
      empty queues; the order of the node lines is a schedule of its workers. */
  lemma LoadReady(rs: seq<Record>)
    requires Distinct(Mains(rs))
    ensures Ready(Load(rs))
    ensures Schedules(Load(rs).nodes, Mains(rs))
  {
    var n, ms := Load(rs), Mains(rs);
    assert RingOf(n.nodes, ms) by { ReadAllRing(rs); }
    assert RingLinked(n.nodes) && Schedules(n.nodes, ms) by {
      RingInjective(n.nodes, ms);
      RingSchedules(n.nodes, ms);
    }
    assert Keyed(n.nodes) && Carrying(n.nodes) && forall k :: k in n.nodes ==> n.nodes[k].incoming == [] by {
      ReadAllPristine(rs);
      PristineCarrying(n.nodes);
    }
    assert n.toDeliver == map[] by { LoadSchedule(rs); }
  }

  lemma PristineCarrying(ns: Arena)
    requires forall k :: k in ns ==> Pristine(ns[k])
    ensures Carrying(ns) && forall k :: k in ns ==> ns[k].incoming == []
  {
    forall k | k in ns
      ensures AllTokens(ns[k].incoming) && AllTokens(ns[k].outgoing)
    {
      assert Pristine(ns[k]);
    }
  }

  lemma RingSchedules(ns: Arena, ms: seq<nat>)
    requires RingOf(ns, ms) && Distinct(ms)
    ensures Schedules(ns, ms)
  {
    forall k | k in ns
      ensures k in ms
    {
      var i := Position(ns, ms, k);
    }
  }

  /** On a ring that follows distinct ids, every `next` is a node and no two nodes share
      a `next`. */
  lemma RingInjective(ns: Arena, ms: seq<nat>)
    requires RingOf(ns, ms) && Distinct(ms)
    ensures RingLinked(ns)
  {
    NextsInside(ns, ms);
    NextsDiffer(ns, ms);
  }

  lemma NextsInside(ns: Arena, ms: seq<nat>)
    requires RingOf(ns, ms)
    ensures forall k :: k in ns ==> ns[k].next.Some? && ns[k].next.value in ns
  {
    forall k | k in ns
      ensures ns[k].next.Some? && ns[k].next.value in ns
    {
      var i := Position(ns, ms, k);
    }
  }

  lemma NextsDiffer(ns: Arena, ms: seq<nat>)
    requires RingOf(ns, ms) && Distinct(ms)
    ensures forall a, b :: a in ns && b in ns && a != b ==> ns[a].next != ns[b].next
  {
    forall a, b | a in ns && b in ns && a != b
      ensures ns[a].next != ns[b].next
    {
      NextDiffers(ns, ms, a, b);
    }
  }

  lemma NextDiffers(ns: Arena, ms: seq<nat>, a: nat, b: nat)
    requires RingOf(ns, ms) && Distinct(ms) && a in ns && b in ns && a != b
    ensures ns[a].next != ns[b].next
  {
    var i := Position(ns, ms, a);
    var j := Position(ns, ms, b);
    SuccDistinct(ms, i, j);
  }

  /** The position of a node of the ring in `ms`. */
  lemma Position(ns: Arena, ms: seq<nat>, k: nat) returns (i: nat)
    requires RingOf(ns, ms) && k in ns
    ensures i < |ms| && ms[i] == k && ns[k].next == Some(ms[Succ(i, |ms|)])
  {
    i :| 0 <= i < |ms| && ms[i] == k;
  }

  lemma SuccDistinct(ms: seq<nat>, i: nat, j: nat)
    requires Distinct(ms) && i < |ms| && j < |ms| && ms[i] != ms[j]
    ensures ms[Succ(i, |ms|)] != ms[Succ(j, |ms|)]
  {
    var i', j' := Succ(i, |ms|), Succ(j, |ms|);
    if i' < j' {
      assert ms[i'] != ms[j'];
    } else if j' < i' {
      assert ms[j'] != ms[i'];
    }
  }
}
