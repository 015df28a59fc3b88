/** The forwarding of bytes between a client and its machine (`deal_with_data` in `balancer.c`,
    `sock_write` in `sockhelp.c`).

    What a system call returns is a parameter. Buffers grow as they must; their sizes are not
    modelled.
 */
module Relay {

  type Byte = bv8

  /** What one call of write returns: a number of bytes taken, an interruption, or a failure. */
  datatype Write = Wrote(n: nat) | Interrupted | Failed

  datatype WriteResult = Complete | Broken | Blocked

  /** What sock_read returns. */
  datatype Read = Bytes(data: seq<Byte>) | Eof | NotAvailable | ReadError

  /** A call that makes sock_write give up. */
  predicate Fails(call: Write) {
    call == Failed || call == Wrote(0)
  }

  predicate AnyFails(calls: seq<Write>) {
    exists i :: 0 <= i < |calls| && Fails(calls[i])
  }

  /** How many bytes the calls are ready to take before the first that fails. */
  function Taken(calls: seq<Write>): nat {
    if calls == [] || Fails(calls[0]) then 0
    else (if calls[0].Wrote? then calls[0].n else 0) + Taken(calls[1..])
  }

  function Min(a: nat, b: nat): nat {
    if a <= b then a else b
  }

  /** What becomes of writing so many bytes. */
  function Fate(size: nat, calls: seq<Write>): WriteResult {
    if size <= Taken(calls) then Complete else if AnyFails(calls) then Broken else Blocked
  }

  lemma TakenStep(calls: seq<Write>, used: nat)
    requires used < |calls|
    ensures Taken(calls[used..]) == if Fails(calls[used]) then 0
                                    else (if calls[used].Wrote? then calls[used].n else 0) + Taken(calls[used + 1..])
  {
    assert calls[used..][1..] == calls[used + 1..];
  }

  /** sock_write: write is called again until everything is written or it fails. What is written
      is the part of the buffer that the calls before the first failure take; interruptions and
      short writes alone never make it fail. */
  method SockWrite(buf: seq<Byte>, calls: seq<Write>) returns (r: WriteResult, written: seq<Byte>)
    ensures r == Fate(|buf|, calls)
    ensures written == buf[..Min(|buf|, Taken(calls))]
  {
    var sent, used := 0, 0;
    assert calls[0..] == calls;
    while sent < |buf|
      invariant 0 <= sent <= |buf| && used <= |calls|
      invariant sent < |buf| ==> sent + Taken(calls[used..]) == Taken(calls)
      invariant sent == |buf| ==> |buf| <= Taken(calls)
      invariant forall i :: 0 <= i < used ==> !Fails(calls[i])
      decreases |calls| - used
    {
      if used == |calls| {
        return Blocked, buf[..sent];
      }
      TakenStep(calls, used);
      var call := calls[used];
      used := used + 1;
      match call {
        case Interrupted =>
        case Failed =>
          return Broken, buf[..sent];
        case Wrote(n) =>
          if n == 0 {
            return Broken, buf[..sent];
          }
          // write never takes more than it is given
          sent := if sent + n <= |buf| then sent + n else |buf|;
      }
    }
    r, written := Complete, buf[..sent];
  }

  lemma Moved(received: seq<Byte>, delivered: seq<Byte>, buffer: seq<Byte>, n: nat)
    requires n <= |buffer|
    ensures received == delivered + buffer ==> received == (delivered + buffer[..n]) + buffer[n..]
    ensures n == |buffer| ==> buffer[..n] == buffer && buffer[n..] == []
  {
    assert buffer == buffer[..n] + buffer[n..];
  }

  /** One direction of the relay: what has been read and not yet written on, with the histories
      of what was read and what was written, and whether every write has succeeded. */
  class Channel {
    var buffer: seq<Byte>
    ghost var received: seq<Byte>
    ghost var delivered: seq<Byte>
    ghost var intact: bool

    /** Until a write fails, what was read is what was written followed by what is buffered. */
    ghost predicate Conserves()
      reads this
    {
      intact ==> received == delivered + buffer
    }

    constructor ()
      ensures Conserves() && intact && received == delivered == buffer == []
    {
      buffer, received, delivered, intact := [], [], [], true;
    }

    /** The far end is ready: what is buffered is written, and forgotten whether or not that
        succeeds. A write that blocks leaves the part not yet taken. */
    method Flush(calls: seq<Write>) returns (r: WriteResult)
      requires Conserves()
      modifies this
      ensures Conserves() && received == old(received)
      ensures r == Fate(|old(buffer)|, calls)
      ensures
        var n := Min(|old(buffer)|, Taken(calls));
        && delivered == old(delivered) + old(buffer)[..n]
        && buffer == if r == Blocked then old(buffer)[n..] else []
      ensures intact <==> old(intact) && r != Broken
    {
      r := Complete;
      if |buffer| > 0 {
        var written;
        r, written := SockWrite(buffer, calls);
        Moved(received, delivered, buffer, |written|);
        delivered := delivered + written;
        intact := intact && r != Broken;
        buffer := if r == Blocked then buffer[|written|..] else [];
      }
    }

    /** The near end is ready: what can be read is appended to the buffer. */
    method Fill(data: seq<Byte>)
      requires Conserves()
      modifies this
      ensures Conserves() && intact == old(intact) && delivered == old(delivered)
      ensures received == old(received) + data && buffer == old(buffer) + data
    {
      buffer := buffer + data;
      received := received + data;
    }
  }

  datatype Outcome = Continue | Closed | Waiting

  /** What a ready end gives when its read is reached. */
  function Got(ready: bool, read: Read): seq<Byte> {
    if ready && read.Bytes? then read.data else []
  }

  /** One end being ready: what is buffered for it is written, and then it is read. Its end of
      file closes both connections. */
  method Serve(toEnd: Channel, fromEnd: Channel, calls: seq<Write>, read: Read) returns (r: Outcome)
    requires toEnd != fromEnd && toEnd.Conserves() && fromEnd.Conserves()
    modifies toEnd, fromEnd
    ensures toEnd.Conserves() && fromEnd.Conserves() && toEnd.received == old(toEnd.received)
    ensures r ==
      if Fate(|old(toEnd.buffer)|, calls) == Blocked then Waiting else if read == Eof then Closed else Continue
    ensures
      var n := Min(|old(toEnd.buffer)|, Taken(calls));
      && toEnd.delivered == old(toEnd.delivered) + old(toEnd.buffer)[..n]
      && toEnd.buffer == if r == Waiting then old(toEnd.buffer)[n..] else []
    ensures toEnd.intact <==> old(toEnd.intact) && Fate(|old(toEnd.buffer)|, calls) != Broken
    ensures fromEnd.intact == old(fromEnd.intact) && fromEnd.delivered == old(fromEnd.delivered)
    ensures fromEnd.received == old(fromEnd.received) + Got(r == Continue, read)
    ensures fromEnd.buffer == old(fromEnd.buffer) + Got(r == Continue, read)
  {
    var w := toEnd.Flush(calls);
    if w == Blocked {
      return Waiting;
    }
    if read == Eof {
      return Closed;
    }
    if read.Bytes? {
      fromEnd.Fill(read.data);
    }
    r := Continue;
  }

  /** A turn of the loop: which ends select reports ready, and what their system calls return. */
  datatype Turn = Turn(client: bool, machine: bool, clientCalls: seq<Write>, machineCalls: seq<Write>,
                       clientRead: Read, machineRead: Read)

  /** What the client sends in the course of the turns. */
  ghost function FromClient(turns: seq<Turn>): seq<Byte> {
    if turns == [] then [] else
      var t := turns[|turns| - 1];
      FromClient(turns[..|turns| - 1]) + Got(t.client, t.clientRead)
  }

  /** What the machine sends in the course of the turns. */
  ghost function FromMachine(turns: seq<Turn>): seq<Byte> {
    if turns == [] then [] else
      var t := turns[|turns| - 1];
      FromMachine(turns[..|turns| - 1]) + Got(t.machine, t.machineRead)
  }

  /** What the client has sent since the machine was last ready. */
  ghost function ForMachine(turns: seq<Turn>): seq<Byte> {
    if turns == [] || turns[|turns| - 1].machine then [] else
      var t := turns[|turns| - 1];
      ForMachine(turns[..|turns| - 1]) + Got(t.client, t.clientRead)
  }

  /** What the machine has sent since the client was last ready. */
  ghost function ForClient(turns: seq<Turn>): seq<Byte> {
    if turns == [] then [] else
      var t := turns[|turns| - 1];
      (if t.client then [] else ForClient(turns[..|turns| - 1])) + Got(t.machine, t.machineRead)
  }

  /** No write of these turns fails. */
  ghost predicate NoFailure(turns: seq<Turn>) {
    forall i :: 0 <= i < |turns| ==> !AnyFails(turns[i].clientCalls) && !AnyFails(turns[i].machineCalls)
  }

  /** Where a run stands after `turns`, and the client's end of one more turn if `next` is given:
      what has been received, what is still buffered, and, unless a write has failed, that what
      was received has been delivered but for that. */
  ghost predicate Relayed(up: Channel, down: Channel, turns: seq<Turn>)
    reads up, down
  {
    && up.Conserves() && down.Conserves()
    && up.received == FromClient(turns) && up.buffer == ForMachine(turns)
    && down.received == FromMachine(turns) && down.buffer == ForClient(turns)
    && (NoFailure(turns) ==> up.intact && down.intact)
  }

  /** How a run ends in a turn: at which end, closed by its end of file or waiting in a write. */
  datatype End = AtClient | AtMachine

  /** How the client's part of a turn ends, given the turns before: a write that blocks is waited
      in, and an end of file closes both connections. */
  ghost function AtClientEnd(before: seq<Turn>, t: Turn): Outcome {
    if !t.client then Continue
    else if Fate(|ForClient(before)|, t.clientCalls) == Blocked then Waiting
    else if t.clientRead == Eof then Closed
    else Continue
  }

  /** How the machine's part ends, once the client's has been completed. */
  ghost function AtMachineEnd(before: seq<Turn>, t: Turn): Outcome {
    if !t.machine then Continue
    else if Fate(|ForMachine(before) + Got(t.client, t.clientRead)|, t.machineCalls) == Blocked then Waiting
    else if t.machineRead == Eof then Closed
    else Continue
  }

  /** How a whole turn ends, and at which end. */
  ghost function EndOf(before: seq<Turn>, t: Turn): (e: (Outcome, End)) {
    if AtClientEnd(before, t) != Continue then (AtClientEnd(before, t), AtClient)
    else (AtMachineEnd(before, t), AtMachine)
  }

  /** All turns are completed. */
  ghost predicate RunsOn(turns: seq<Turn>) {
    turns == [] ||
    (RunsOn(turns[..|turns| - 1]) && EndOf(turns[..|turns| - 1], turns[|turns| - 1]).0 == Continue)
  }

  /** The state when the last of the turns is not completed. */
  ghost predicate Stopped(up: Channel, down: Channel, turns: seq<Turn>, r: Outcome, end: End)
    requires |turns| > 0
    reads up, down
  {
    var before, t := turns[..|turns| - 1], turns[|turns| - 1];
    && up.Conserves() && down.Conserves() && (NoFailure(turns) ==> up.intact && down.intact)
    && down.received == FromMachine(before) && (r, end) == EndOf(before, t)
    && match end
       case AtClient =>
         && up.received == FromClient(before) && up.buffer == ForMachine(before)
         && down.buffer == if r == Waiting then ForClient(before)[Taken(t.clientCalls)..] else []
       case AtMachine =>
         var waiting := ForMachine(before) + Got(t.client, t.clientRead);
         && up.received == FromClient(turns) && down.buffer == (if t.client then [] else ForClient(before))
         && up.buffer == if r == Waiting then waiting[Taken(t.machineCalls)..] else []
  }

  /** The state between the two parts of a turn. */
  ghost predicate Halfway(up: Channel, down: Channel, before: seq<Turn>, t: Turn)
    reads up, down
  {
    && up.Conserves() && down.Conserves()
    && up.received == FromClient(before + [t]) && up.buffer == ForMachine(before) + Got(t.client, t.clientRead)
    && down.received == FromMachine(before) && down.buffer == (if t.client then [] else ForClient(before))
    && (NoFailure(before) && !AnyFails(t.clientCalls) ==> up.intact && down.intact)
  }

  lemma LastTurn(before: seq<Turn>, t: Turn)
    ensures (before + [t])[..|before|] == before && (before + [t])[|before|] == t
    ensures FromClient(before + [t]) == FromClient(before) + Got(t.client, t.clientRead)
    ensures FromMachine(before + [t]) == FromMachine(before) + Got(t.machine, t.machineRead)
  {
    assert (before + [t])[..|before|] == before;
  }

  /** The client's part of a turn. */
  method ServeClient(up: Channel, down: Channel, t: Turn, ghost before: seq<Turn>) returns (r: Outcome)
    requires up != down && Relayed(up, down, before)
    modifies up, down
    ensures r == AtClientEnd(before, t)
    ensures r == Continue ==> Halfway(up, down, before, t)
    ensures r != Continue ==> Stopped(up, down, before + [t], r, AtClient)
  {
    LastTurn(before, t);
    NoFailureSplits(before, t);
    r := Continue;
    if t.client {
      FateFails(|ForClient(before)|, t.clientCalls);
      r := Serve(down, up, t.clientCalls, t.clientRead);
    }
  }

  /** The machine's part of a turn. */
  method ServeMachine(up: Channel, down: Channel, t: Turn, ghost before: seq<Turn>) returns (r: Outcome)
    requires up != down && Halfway(up, down, before, t) && AtClientEnd(before, t) == Continue
    modifies up, down
    ensures r == AtMachineEnd(before, t)
    ensures r == Continue ==> Relayed(up, down, before + [t])
    ensures r != Continue ==> Stopped(up, down, before + [t], r, AtMachine)
  {
    LastTurn(before, t);
    NoFailureSplits(before, t);
    r := Continue;
    if t.machine {
      FateFails(|ForMachine(before) + Got(t.client, t.clientRead)|, t.machineCalls);
      r := Serve(up, down, t.machineCalls, t.machineRead);
    }
  }

  /** One turn of the loop. */
  method ServeBoth(up: Channel, down: Channel, t: Turn, ghost before: seq<Turn>) returns (r: Outcome, end: End)
    requires up != down && Relayed(up, down, before)
    modifies up, down
    ensures (r, end) == EndOf(before, t)
    ensures r == Continue ==> Relayed(up, down, before + [t])
    ensures r != Continue ==> Stopped(up, down, before + [t], r, end)
  {
    end := AtClient;
    r := ServeClient(up, down, t, before);
    if r == Continue {
      end := AtMachine;
      r := ServeMachine(up, down, t, before);
    }
  }

  lemma {:induction false} RunsBefore(turns: seq<Turn>, i: nat)
    requires i <= |turns| && RunsOn(turns)
    ensures RunsOn(turns[..i])
    decreases |turns|
  {
    if i < |turns| {
      RunsBefore(turns[..|turns| - 1], i);
      assert turns[..|turns| - 1][..i] == turns[..i];
    } else {
      assert turns[..i] == turns;
    }
  }

  lemma RunsMore(before: seq<Turn>, t: Turn)
    requires RunsOn(before)
    ensures RunsOn(before + [t]) <==> EndOf(before, t).0 == Continue
  {
    LastTurn(before, t);
  }

  lemma RunStops(turns: seq<Turn>, done: seq<Turn>)
    requires done <= turns && !RunsOn(done)
    ensures !RunsOn(turns)
  {
    assert turns[..|done|] == done;
    if RunsOn(turns) {
      RunsBefore(turns, |done|);
    }
  }

  lemma NoFailureSplits(before: seq<Turn>, t: Turn)
    ensures NoFailure(before + [t]) <==> NoFailure(before) && !AnyFails(t.clientCalls) && !AnyFails(t.machineCalls)
  {
    var turns := before + [t];
    assert turns[|before|] == t;
    assert forall i :: 0 <= i < |before| ==> turns[i] == before[i];
  }

  lemma FateFails(size: nat, calls: seq<Write>)
    ensures Fate(size, calls) == Broken ==> AnyFails(calls)
    ensures Fate(size, calls) == Blocked ==> Min(size, Taken(calls)) == Taken(calls)
  {}

  lemma OneMore(turns: seq<Turn>, done: seq<Turn>)
    requires done <= turns && |done| < |turns|
    ensures done + [turns[|done|]] <= turns
  {}

  /** The loop of deal_with_data, on new channels. */
  method RunTurns(turns: seq<Turn>, up: Channel, down: Channel)
    returns (r: Outcome, ghost done: seq<Turn>, end: End)
    requires up != down && Relayed(up, down, [])
    modifies up, down
    ensures done <= turns && (r == Continue <==> RunsOn(turns))
    ensures r == Continue ==> done == turns && Relayed(up, down, turns)
    ensures r != Continue ==> Halted(up, down, done, r, end)
  {
    r, end, done := Continue, AtClient, [];
    for i := 0 to |turns|
      invariant r == Continue && done <= turns && |done| == i && Relayed(up, down, done) && RunsOn(done)
    {
      OneMore(turns, done);
      RunsMore(done, turns[i]);
      LastTurn(done, turns[i]);
      ghost var before := done;
      r, end := ServeBoth(up, down, turns[i], before);
      done := before + [turns[i]];
      if r != Continue {
        assert done[..|done| - 1] == before;
        RunStops(turns, done);
        return;
      }
    }
    assert done == turns;
  }

  /** The run has ended in the last of these turns, and not before. */
  ghost predicate Halted(up: Channel, down: Channel, done: seq<Turn>, r: Outcome, end: End)
    reads up, down
  {
    done != [] && RunsOn(done[..|done| - 1]) && Stopped(up, down, done, r, end)
  }

  /** deal_with_data, for any turns: what each end sent has been delivered to the other, in order
      and once, but for what came since the other was last ready; unless a write failed. When a
      side closes or a write blocks, that holds up to there: the run ends with the first turn that
      reads an end of file or blocks in a write. */
  method DealWithData(turns: seq<Turn>)
    returns (r: Outcome, up: Channel, down: Channel, ghost done: seq<Turn>, end: End)
    ensures fresh(up) && fresh(down) && done <= turns && (r == Continue <==> RunsOn(turns))
    ensures r == Continue ==> done == turns && Relayed(up, down, turns)
    ensures r == Continue && NoFailure(turns) ==>
      FromClient(turns) == up.delivered + ForMachine(turns) && FromMachine(turns) == down.delivered + ForClient(turns)
    ensures r != Continue ==> Halted(up, down, done, r, end)
    ensures r != Continue && NoFailure(done) ==>
      up.received == up.delivered + up.buffer && down.received == down.delivered + down.buffer
  {
    up := new Channel();
    down := new Channel();
    r, done, end := RunTurns(turns, up, down);
  }
}
