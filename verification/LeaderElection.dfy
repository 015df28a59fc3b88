/** The election of a leader among controllers (`leader.c`): proposals are collected until all
    have come or time is up, and the greatest positive one wins.

    Timers and received proposals are parameters. Broadcasting is not modelled.
 */
module LeaderElection {

  const MAX_CONTROLLERS := 32
  const SUSPECT_THRESHOLD := 10
  const PROPOSE_THRESHOLD := 10

  /** The greatest positive identifier, or 0. */
  function Greatest(ids: seq<int>): (m: nat) {
    if ids == [] then 0 else
      var before, last := Greatest(ids[..|ids| - 1]), ids[|ids| - 1];
      if last > before then last else before
  }

  /** The greatest identifier is one of them, and none is greater. */
  lemma {:induction false} GreatestIs(ids: seq<int>)
    ensures forall i :: 0 <= i < |ids| ==> ids[i] <= Greatest(ids)
    ensures Greatest(ids) > 0 ==> Greatest(ids) in ids
    ensures Greatest(ids) == 0 <==> forall i :: 0 <= i < |ids| ==> ids[i] <= 0
    decreases |ids|
  {
    if ids != [] {
      var n := |ids| - 1;
      GreatestIs(ids[..n]);
      assert forall i :: 0 <= i < n ==> ids[..n][i] == ids[i];
      if Greatest(ids) == ids[n] {
        assert ids[n] in ids;
      }
    }
  }

  /** The greatest identifier depends neither on the order of the proposals nor on how often each
      has been received. */
  lemma OrderIrrelevant(a: seq<int>, b: seq<int>)
    requires forall x :: x > 0 ==> (x in a <==> x in b)
    ensures Greatest(a) == Greatest(b)
  {
    GreatestIs(a);
    GreatestIs(b);
  }

  /** Where the greatest identifier first stands. */
  ghost predicate FirstGreatest(ids: seq<int>, i: nat) {
    && i < |ids| && ids[i] > 0 && ids[i] == Greatest(ids)
    && forall k :: 0 <= k < i ==> ids[k] < ids[i]
  }

  datatype Decision = NotYet | NoLeader | Elected

  class Elector {
    const controllers: nat
    var leaderSocket: int
    var amILeader: bool
    var agreementRunning: bool
    const proposals: array<int>
    const sockets: array<int>
    var last: nat
    /** The identifier the leader was elected with. */
    ghost var leaderId: int

    ghost predicate Valid()
      reads this, sockets
    {
      && proposals.Length == MAX_CONTROLLERS && sockets.Length == MAX_CONTROLLERS && proposals != sockets
      && last <= MAX_CONTROLLERS && !amILeader
      && forall i :: 0 <= i < last ==> sockets[i] >= 0
    }

    /** The leader is the first of those who proposed the greatest identifier. */
    ghost predicate Chosen()
      requires Valid()
      reads this, proposals, sockets
    {
      && leaderId == Greatest(proposals[..last]) > 0
      && exists i: nat :: FirstGreatest(proposals[..last], i) && leaderSocket == sockets[i]
    }

    constructor (n: nat)
      ensures Valid() && leaderSocket == -1 && !agreementRunning && last == 0 && controllers == n
      ensures fresh(proposals) && fresh(sockets)
    {
      controllers, leaderSocket, amILeader, agreementRunning, last := n, -1, false, false, 0;
      leaderId := 0;
      proposals := new int[MAX_CONTROLLERS];
      sockets := new int[MAX_CONTROLLERS];
    }

    /** leader_propose: the proposal is entered after those received. The source does not look
        whether there is room; without room the model only reports it. */
    method Propose(sock: int, content: int) returns (room: bool)
      requires Valid() && sock >= 0
      modifies this`last, proposals, sockets
      ensures Valid() && room == (old(last) < MAX_CONTROLLERS)
      ensures proposals[..last] == old(proposals[..last]) + (if room then [content] else [])
      ensures sockets[..last] == old(sockets[..last]) + (if room then [sock] else [])
    {
      room := last < MAX_CONTROLLERS;
      if room {
        sockets[last] := sock;
        proposals[last] := content;
        last := last + 1;
      }
    }

    /** do_agreement_reduction: once all controllers have proposed or the time for it is over,
        the first proposal with the greatest positive identifier gives the leader. */
    method Reduce(elapsed: int) returns (d: Decision)
      requires Valid()
      modifies this`leaderSocket, this`agreementRunning, this`leaderId
      ensures Valid()
      ensures d == NotYet <==> last < controllers && elapsed <= PROPOSE_THRESHOLD
      ensures d == NoLeader ==> forall i :: 0 <= i < last ==> proposals[i] <= 0
      ensures d == Elected ==> Chosen()
      ensures d != Elected ==> leaderSocket == old(leaderSocket) && leaderId == old(leaderId)
      ensures agreementRunning == if d == NotYet then old(agreementRunning) else false
    {
      if last < controllers && elapsed <= PROPOSE_THRESHOLD {
        return NotYet;
      }
      var leader, id := -1, 0;
      ghost var at := 0;
      for i := 0 to last
        invariant unchanged(this) && id == Greatest(proposals[..i])
        invariant leader == -1 <==> id == 0
        invariant leader != -1 ==> at < i && FirstGreatest(proposals[..i], at) && leader == sockets[at]
      {
        GreatestIs(proposals[..i]);
        assert proposals[..i + 1][..i] == proposals[..i];
        if proposals[i] > id {
          id, leader, at := proposals[i], sockets[i], i;
        }
      }
      GreatestIs(proposals[..last]);
      agreementRunning := false;
      if leader == -1 {
        assert forall i :: 0 <= i < last ==> proposals[..last][i] == proposals[i];
        return NoLeader;
      }
      leaderSocket, leaderId := leader, id;
      d := Elected;
    }

    /** do_leader_election: while an agreement is running it is tried to be concluded; otherwise
        one is begun, and whatever proposals had been received before are forgotten. */
    method Elect(elapsed: int) returns (d: Decision)
      requires Valid()
      modifies this
      ensures Valid()
      ensures !old(agreementRunning) ==>
        d == NotYet && agreementRunning && last == 0 && leaderSocket == old(leaderSocket)
      ensures old(agreementRunning) ==>
        last == old(last) && (d == NotYet <==> last < controllers && elapsed <= PROPOSE_THRESHOLD)
      ensures agreementRunning <==> d == NotYet
      ensures d == NoLeader ==> forall i :: 0 <= i < last ==> proposals[i] <= 0
      ensures d == Elected ==> Chosen()
      ensures d != Elected ==> leaderSocket == old(leaderSocket) && leaderId == old(leaderId)
    {
      if agreementRunning {
        d := Reduce(elapsed);
        return;
      }
      agreementRunning := true;
      last := 0;
      d := NotYet;
    }

    /** A turn of leader_loop: the leader is suspected after too long without a heartbeat, and
        without a leader there is an election. No turn makes a controller regard itself as the
        leader, so none ever sends a heartbeat. */
    method Turn(sinceHeartbeat: int, elapsed: int) returns (d: Decision, heartbeat: bool)
      requires Valid()
      modifies this
      ensures Valid() && !heartbeat
      ensures sinceHeartbeat > SUSPECT_THRESHOLD && d != Elected ==> leaderSocket == -1
      ensures sinceHeartbeat <= SUSPECT_THRESHOLD && old(leaderSocket) != -1 ==>
        && d == NotYet && leaderSocket == old(leaderSocket) && leaderId == old(leaderId) && last == old(last)
        && agreementRunning == old(agreementRunning)
      ensures sinceHeartbeat > SUSPECT_THRESHOLD || old(leaderSocket) == -1 ==>
        && (agreementRunning <==> d == NotYet)
        && (if old(agreementRunning)
            then last == old(last) && (d == NotYet <==> last < controllers && elapsed <= PROPOSE_THRESHOLD)
            else last == 0 && d == NotYet)
      ensures d == NoLeader ==> forall i :: 0 <= i < last ==> proposals[i] <= 0
      ensures d == Elected ==> old(agreementRunning) && Chosen()
    {
      if sinceHeartbeat > SUSPECT_THRESHOLD {
        leaderSocket := -1;
        amILeader := false;
      }
      d := NotYet;
      if leaderSocket == -1 {
        d := Elect(elapsed);
      }
      heartbeat := amILeader;
    }
  }

  ghost predicate SameProposals(a: Elector, b: Elector)
    requires a.Valid() && b.Valid()
    reads a, a.proposals, a.sockets, b, b.proposals, b.sockets
  {
    forall id :: id > 0 ==> (id in a.proposals[..a.last] <==> id in b.proposals[..b.last])
  }

  /** The socket over which the identifier was first received. */
  ghost predicate FirstOver(e: Elector, sock: int, id: int)
    requires e.Valid()
    reads e, e.proposals, e.sockets
  {
    exists i: nat :: i < e.last && e.proposals[i] == id && e.sockets[i] == sock &&
      forall k :: 0 <= k < i ==> e.proposals[k] != id
  }

  lemma ChosenFirst(e: Elector)
    requires e.Valid() && e.Chosen()
    ensures FirstOver(e, e.leaderSocket, e.leaderId)
  {
    var ids := e.proposals[..e.last];
    var i: nat :| FirstGreatest(ids, i) && e.leaderSocket == e.sockets[i];
    assert forall k :: 0 <= k < i ==> ids[k] == e.proposals[k];
  }

  /** What a decision says about the proposals it was made from. */
  ghost predicate Concluded(e: Elector, d: Decision)
    requires e.Valid()
    reads e, e.proposals, e.sockets
  {
    match d
    case NotYet => false
    case NoLeader => forall i :: 0 <= i < e.last ==> e.proposals[i] <= 0
    case Elected => e.Chosen()
  }

  lemma GreatestConcluded(e: Elector, d: Decision)
    requires e.Valid() && Concluded(e, d)
    ensures d == Elected <==> Greatest(e.proposals[..e.last]) > 0
    ensures d == NoLeader || d == Elected
  {
    var ids := e.proposals[..e.last];
    GreatestIs(ids);
    assert forall i :: 0 <= i < e.last ==> ids[i] == e.proposals[i];
  }

  /** Decisions made from the same positive identifiers agree. */
  lemma Agreement(a: Elector, b: Elector, d: Decision, d': Decision)
    requires a.Valid() && b.Valid() && SameProposals(a, b) && Concluded(a, d) && Concluded(b, d')
    ensures d == d'
    ensures d == Elected ==>
      && a.leaderId == b.leaderId > 0
      && FirstOver(a, a.leaderSocket, a.leaderId) && FirstOver(b, b.leaderSocket, b.leaderId)
  {
    OrderIrrelevant(a.proposals[..a.last], b.proposals[..b.last]);
    GreatestConcluded(a, d);
    GreatestConcluded(b, d');
    if d == Elected {
      ChosenFirst(a);
      ChosenFirst(b);
    }
  }

  /** Two controllers that have been proposed the same positive identifiers, in whatever order
      and however often each, conclude for the same identifier, each for the socket over which
      it received that one first. */
  method ConcludeBoth(a: Elector, b: Elector, elapsed: int, elapsed': int) returns (d: Decision, d': Decision)
    requires a != b && a.Valid() && b.Valid() && {a.proposals, a.sockets} !! {b.proposals, b.sockets}
    requires SameProposals(a, b)
    modifies a, b
    ensures a.Valid() && b.Valid()
    ensures d == Elected && d' == Elected ==>
      && a.leaderId == b.leaderId > 0
      && FirstOver(a, a.leaderSocket, a.leaderId) && FirstOver(b, b.leaderSocket, b.leaderId)
    ensures d != NotYet && d' != NotYet ==> d == d'
  {
    d := a.Reduce(elapsed);
    d' := b.Reduce(elapsed');
    if d != NotYet && d' != NotYet {
      Agreement(a, b, d, d');
    }
  }
}
