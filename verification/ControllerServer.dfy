/** The controller (`server.c`) as a system of atomic steps: the thread that accepts virtual
    machines, one communication thread for each of them, and the thread that forwards changes to
    the load balancer.

    `mutex` guards the tables. The accepting thread takes it and the communication thread it
    starts releases it. `manage_vm_mutex` guards the one message buffer. Whoever has a change to
    announce takes it, fills the buffer field by field and raises a flag; the balancer thread
    sends the buffer, lowers the flag and releases the mutex. Sends and thread creation succeed.
    A machine's messages and disconnections come at any time and in any order.
 */
module ControllerServer {

  const GROUPS := 3
  const INITIAL := 5
  const LB_PORT := 8080

  type Address = string

  datatype VmState = StandBy | Active | Rejuvenating

  /** vm_data, as far as the protocol uses it. */
  datatype Record = Record(ip: Address, port: nat, service: nat, state: VmState)

  datatype Operation = Add | Delete | Rej

  /** virtual_machine: what the balancer is told. */
  datatype Message = Message(ip: Address, port: nat, service: nat, op: Operation)

  /** The table of one group: the first `current` of the allocated slots are in use. */
  datatype Group = Group(slots: seq<Record>, current: nat)

  /** Who is to release a mutex. The code does not look at this. */
  datatype Lock = Free | ByAcceptor | ByThread(t: nat) | ByBalancer

  datatype Acceptor =
    | Accepting
    | WantTable(rec: Record)
    | Storing(rec: Record)
    | WantBuffer(rec: Record, index: nat)
    | Announcing(rec: Record, index: nat, k: nat)
    | Spawning(rec: Record, index: nat)

  /** A communication thread. `expected` only records what was stored at `index`; the thread
      reads the table. */
  datatype Thread =
    | Starting(index: nat, expected: Record)
    | Running(vm: Record)
    | WantSwitch(vm: Record)
    | Switching(vm: Record)
    | WantReport(vm: Record, op: Operation)
    | Reporting(vm: Record, op: Operation, k: nat)
    | WantRemoval(vm: Record)
    | Removing(vm: Record)
    | Gone

  datatype Balancer = Polling | Sending | Lowering | Releasing

  /** The shared memory and the control points, and the histories of messages announced and
      sent and of records stored and copied. */
  datatype State = State(
    mutex: Lock, manage: Lock, flag: bool, buffer: Message, groups: seq<Group>,
    acceptor: Acceptor, threads: seq<Thread>, balancer: Balancer,
    announced: seq<Message>, sent: seq<Message>, stored: seq<Record>, copied: seq<Record>)

  /** What a running thread finds when it reads its socket. */
  datatype Event = Features | NearCrash | Disconnected

  datatype Action = Connect(rec: Record) | AcceptorStep | ThreadStep(t: nat, event: Event) | BalancerStep

  // ----- the tables

  const EMPTY := Record("", 0, 0, StandBy)

  /** Slots are doubled when they are all in use; the new record goes after those in use. */
  function Append(g: Group, rec: Record): (r: Group)
    requires g.current <= |g.slots| && |g.slots| >= 1
    ensures r.current == g.current + 1 <= |r.slots|
    ensures r.slots[..r.current] == g.slots[..g.current] + [rec]
    ensures |r.slots| == if g.current == |g.slots| then 2 * |g.slots| else |g.slots|
  {
    var slots := if g.current == |g.slots| then g.slots + seq(|g.slots|, i => EMPTY) else g.slots;
    Group(slots[g.current := rec], g.current + 1)
  }

  /** The first of the records with this address, or their number. */
  function FindIp(s: seq<Record>, ip: Address): (i: nat)
    ensures i <= |s| && (i < |s| ==> s[i].ip == ip)
  {
    if s == [] || s[0].ip == ip then 0 else 1 + FindIp(s[1..], ip)
  }

  /** manage_disconnected_vms: the last record takes the place of the first with this address. */
  function Remove(g: Group, ip: Address): (r: Group)
    requires g.current <= |g.slots|
    ensures r.current <= |r.slots| == |g.slots|
  {
    var i := FindIp(g.slots[..g.current], ip);
    if i == g.current then g else Group(g.slots[i := g.slots[g.current - 1]], g.current - 1)
  }

  /** The first record standing by, or their number. */
  function FindStandBy(s: seq<Record>): (i: nat)
    ensures i <= |s| && (i < |s| ==> s[i].state == StandBy)
  {
    if s == [] || s[0].state == StandBy then 0 else 1 + FindStandBy(s[1..])
  }

  /** switch_active_machine, on the table: the first machine standing by becomes active. */
  function Promote(g: Group): (r: Group)
    requires g.current <= |g.slots|
    ensures r.current == g.current && |r.slots| == |g.slots|
  {
    var i := FindStandBy(g.slots[..g.current]);
    if i == g.current then g else g.(slots := g.slots[i := g.slots[i].(state := Active)])
  }

  /** The records found are the first of their kind. */
  lemma {:induction false} FoundFirst(s: seq<Record>, ip: Address, k: nat)
    requires k < |s|
    ensures k < FindIp(s, ip) ==> s[k].ip != ip
    ensures k < FindStandBy(s) ==> s[k].state != StandBy
    decreases |s|
  {
    if k > 0 {
      FoundFirst(s[1..], ip, k - 1);
    }
  }

  // ----- the steps

  /** Assigning field k of the buffer. */
  function Fill(b: Message, m: Message, k: nat): Message {
    match k
    case 0 => b.(ip := m.ip)
    case 1 => b.(port := m.port)
    case 2 => b.(service := m.service)
    case _ => b.(op := m.op)
  }

  function AddMessage(rec: Record): Message {
    Message(rec.ip, LB_PORT, rec.service, Add)
  }

  function ReportMessage(vm: Record, op: Operation): Message {
    Message(vm.ip, LB_PORT, vm.service, op)
  }

  predicate AcceptorEnabled(s: State) {
    match s.acceptor
    case Accepting => false
    case WantTable(_) => s.mutex == Free
    case WantBuffer(_, _) => s.manage == Free
    case _ => true
  }

  predicate ThreadEnabled(s: State, t: nat)
    requires t < |s.threads|
  {
    match s.threads[t]
    case WantSwitch(_) => s.mutex == Free
    case WantReport(_, _) => s.manage == Free
    case WantRemoval(_) => s.mutex == Free
    case Gone => false
    case _ => true
  }

  /** Whether the action can be taken: connecting machines ask for an existing service. */
  predicate Enabled(s: State, a: Action) {
    match a
    case Connect(rec) => s.acceptor == Accepting && rec.service < GROUPS
    case AcceptorStep => AcceptorEnabled(s)
    case ThreadStep(t, _) => t < |s.threads| && ThreadEnabled(s, t)
    case BalancerStep => true
  }

  /** The indices used by the control points lie within the tables. */
  predicate Shaped(s: State) {
    && |s.groups| == GROUPS
    && (forall g :: 0 <= g < GROUPS ==> s.groups[g].current <= |s.groups[g].slots| && |s.groups[g].slots| >= 1)
    && (!s.acceptor.Accepting? ==> s.acceptor.rec.service < GROUPS)
    && (s.acceptor.Announcing? ==> s.acceptor.k <= 4)
    && (forall t :: 0 <= t < |s.threads| ==> ThreadShaped(s.threads[t], s.groups))
  }

  predicate ThreadShaped(th: Thread, groups: seq<Group>)
    requires |groups| == GROUPS
  {
    match th
    case Starting(index, expected) => expected.service < GROUPS && index < |groups[expected.service].slots|
    case Gone => true
    case Reporting(vm, _, k) => vm.service < GROUPS && k <= 4
    case _ => th.vm.service < GROUPS
  }

  function AcceptorDo(s: State): State
    requires Shaped(s) && AcceptorEnabled(s)
  {
    match s.acceptor
    case WantTable(rec) => s.(mutex := ByAcceptor, acceptor := Storing(rec))
    case Storing(rec) =>
      var g := s.groups[rec.service];
      s.(groups := s.groups[rec.service := Append(g, rec)], stored := s.stored + [rec],
         acceptor := if rec.state == Active then WantBuffer(rec, g.current) else Spawning(rec, g.current))
    case WantBuffer(rec, index) => s.(manage := ByAcceptor, acceptor := Announcing(rec, index, 0))
    case Announcing(rec, index, k) =>
      if k < 4 then
        s.(buffer := Fill(s.buffer, AddMessage(rec), k), acceptor := Announcing(rec, index, k + 1))
      else
        s.(flag := true, manage := ByBalancer, announced := s.announced + [AddMessage(rec)],
           acceptor := Spawning(rec, index))
    case Spawning(rec, index) =>
      s.(mutex := ByThread(|s.threads|), threads := s.threads + [Starting(index, rec)], acceptor := Accepting)
  }

  function ThreadDo(s: State, t: nat, event: Event): State
    requires Shaped(s) && t < |s.threads| && ThreadEnabled(s, t)
  {
    match s.threads[t]
    case Starting(index, expected) =>
      var vm := s.groups[expected.service].slots[index];
      s.(mutex := Free, threads := s.threads[t := Running(vm)], copied := s.copied + [vm])
    case Running(vm) =>
      if vm.state != Active || event == Features then s
      else if event == NearCrash then s.(threads := s.threads[t := WantSwitch(vm)])
      else s.(threads := s.threads[t := WantReport(vm, Delete)])
    case WantSwitch(vm) => s.(mutex := ByThread(t), threads := s.threads[t := Switching(vm)])
    case Switching(vm) =>
      s.(groups := s.groups[vm.service := Promote(s.groups[vm.service])], mutex := Free,
         threads := s.threads[t := WantReport(vm, Rej)])
    case WantReport(vm, op) => s.(manage := ByThread(t), threads := s.threads[t := Reporting(vm, op, 0)])
    case Reporting(vm, op, k) =>
      if k < 4 then
        s.(buffer := Fill(s.buffer, ReportMessage(vm, op), k), threads := s.threads[t := Reporting(vm, op, k + 1)])
      else
        s.(flag := true, manage := ByBalancer, announced := s.announced + [ReportMessage(vm, op)],
           threads := s.threads[t := if op == Rej then Running(vm) else WantRemoval(vm)])
    case WantRemoval(vm) => s.(mutex := ByThread(t), threads := s.threads[t := Removing(vm)])
    case Removing(vm) =>
      s.(groups := s.groups[vm.service := Remove(s.groups[vm.service], vm.ip)], mutex := Free,
         threads := s.threads[t := Gone])
  }

  function BalancerDo(s: State): State {
    match s.balancer
    case Polling => if s.flag then s.(balancer := Sending) else s
    case Sending => s.(sent := s.sent + [s.buffer], balancer := Lowering)
    case Lowering => s.(flag := false, balancer := Releasing)
    case Releasing => s.(manage := Free, balancer := Polling)
  }

  function Do(s: State, a: Action): State
    requires Shaped(s) && Enabled(s, a)
  {
    match a
    case Connect(rec) => s.(acceptor := WantTable(rec))
    case AcceptorStep => AcceptorDo(s)
    case ThreadStep(t, event) => ThreadDo(s, t, event)
    case BalancerStep => BalancerDo(s)
  }

  function Initial(): State {
    State(Free, Free, false, Message("", 0, 0, Add), seq(GROUPS, g => Group(seq(INITIAL, i => EMPTY), 0)),
          Accepting, [], Polling, [], [], [], [])
  }

  // ----- who holds what

  /** The table mutex is held by exactly the control points that will release it. */
  ghost predicate TableLock(s: State) {
    && (s.mutex == ByAcceptor <==>
         s.acceptor.Storing? || s.acceptor.WantBuffer? || s.acceptor.Announcing? || s.acceptor.Spawning?)
    && (forall t {:trigger s.threads[t]} :: 0 <= t < |s.threads| ==>
         (s.mutex == ByThread(t) <==> HoldsTable(s.threads[t])))
    && (s.mutex.ByThread? ==> s.mutex.t < |s.threads|) && s.mutex != ByBalancer
  }

  /** So is the mutex of the message buffer. */
  ghost predicate BufferLock(s: State) {
    && (s.manage == ByAcceptor <==> s.acceptor.Announcing?)
    && (forall t {:trigger s.threads[t]} :: 0 <= t < |s.threads| ==>
         (s.manage == ByThread(t) <==> s.threads[t].Reporting?))
    && (s.manage.ByThread? ==> s.manage.t < |s.threads|)
    && (s.manage == ByBalancer <==> s.flag || s.balancer == Releasing)
    && (s.balancer == Sending || s.balancer == Lowering ==> s.flag)
    && (s.balancer == Releasing ==> !s.flag)
  }

  ghost predicate Locks(s: State) {
    TableLock(s) && BufferLock(s)
  }

  predicate HoldsTable(th: Thread) {
    th.Starting? || th.Switching? || th.Removing?
  }

  // ----- messages

  /** Fields 0 to k - 1 of the buffer have been filled in. */
  ghost predicate Filled(b: Message, m: Message, k: nat) {
    && (k > 0 ==> b.ip == m.ip) && (k > 1 ==> b.port == m.port)
    && (k > 2 ==> b.service == m.service) && (k > 3 ==> b.op == m.op)
  }

  /** The flag is raised and the balancer thread has not sent the buffer yet. */
  predicate Pending(s: State) {
    s.flag && s.balancer != Lowering
  }

  /** What was announced has been sent, in order, but for the message in the buffer. */
  ghost predicate Messages(s: State) {
    && s.announced == s.sent + (if Pending(s) then [s.buffer] else [])
    && (s.acceptor.Announcing? ==> Filled(s.buffer, AddMessage(s.acceptor.rec), s.acceptor.k))
    && (forall t {:trigger s.threads[t]} :: 0 <= t < |s.threads| && s.threads[t].Reporting? ==>
         Filled(s.buffer, ReportMessage(s.threads[t].vm, s.threads[t].op), s.threads[t].k))
  }

  // ----- records

  /** The accepting thread has stored a record and not yet started its thread. */
  predicate Unstarted(a: Acceptor) {
    a.WantBuffer? || a.Announcing? || a.Spawning?
  }

  ghost predicate At(groups: seq<Group>, rec: Record, index: nat) {
    rec.service < |groups| && index < |groups[rec.service].slots| && groups[rec.service].slots[index] == rec
  }

  ghost predicate ByStarting(s: State) {
    s.mutex.ByThread? && s.mutex.t < |s.threads| && s.threads[s.mutex.t].Starting?
  }

  ghost predicate ByStorer(s: State) {
    s.mutex == ByAcceptor && Unstarted(s.acceptor)
  }

  /** Every record stored has been copied by its thread, in order, but for the last one while
      its thread has not done so. */
  ghost predicate Copies(s: State) {
    && (ByStorer(s) ==> At(s.groups, s.acceptor.rec, s.acceptor.index) && s.stored == s.copied + [s.acceptor.rec])
    && (ByStarting(s) ==>
         var th := s.threads[s.mutex.t];
         At(s.groups, th.expected, th.index) && s.stored == s.copied + [th.expected])
    && (!ByStorer(s) && !ByStarting(s) ==> s.stored == s.copied)
  }

  // ----- every step keeps them

  lemma ShapedAcceptor(s: State)
    requires Shaped(s) && AcceptorEnabled(s) && Locks(s) && Copies(s)
    ensures Shaped(AcceptorDo(s))
  {
  }

  lemma ShapedThread(s: State, t: nat, e: Event)
    requires Shaped(s) && t < |s.threads| && ThreadEnabled(s, t) && Locks(s) && Copies(s)
    ensures Shaped(ThreadDo(s, t, e))
  {
    var after := ThreadDo(s, t, e);
    GroupsShaped(s, t, e);
    ActorShaped(s, t, e);
    forall u | 0 <= u < |after.threads| ensures ThreadShaped(after.threads[u], after.groups) {
      if u != t {
        OtherShaped(s, t, e, u);
      }
    }
  }

  lemma GroupsShaped(s: State, t: nat, e: Event)
    requires Shaped(s) && t < |s.threads| && ThreadEnabled(s, t)
    ensures
      var after := ThreadDo(s, t, e);
      && |after.groups| == GROUPS && |after.threads| == |s.threads| && after.acceptor == s.acceptor
      && forall g :: 0 <= g < GROUPS ==>
           after.groups[g].current <= |after.groups[g].slots| == |s.groups[g].slots|
  {
  }

  lemma ActorShaped(s: State, t: nat, e: Event)
    requires Shaped(s) && t < |s.threads| && ThreadEnabled(s, t) && |ThreadDo(s, t, e).groups| == GROUPS
    requires Copies(s) && Locks(s)
    ensures |ThreadDo(s, t, e).threads| == |s.threads|
    ensures ThreadShaped(ThreadDo(s, t, e).threads[t], ThreadDo(s, t, e).groups)
  {
    assert ThreadShaped(s.threads[t], s.groups);
  }

  lemma OtherShaped(s: State, t: nat, e: Event, u: nat)
    requires Shaped(s) && t < |s.threads| && ThreadEnabled(s, t) && u < |s.threads| && u != t
    requires |ThreadDo(s, t, e).groups| == GROUPS
    requires forall g :: 0 <= g < GROUPS ==> |ThreadDo(s, t, e).groups[g].slots| == |s.groups[g].slots|
    ensures |ThreadDo(s, t, e).threads| == |s.threads|
    ensures ThreadShaped(ThreadDo(s, t, e).threads[u], ThreadDo(s, t, e).groups)
  {
    assert ThreadShaped(s.threads[u], s.groups);
    assert ThreadDo(s, t, e).threads[u] == s.threads[u];
  }

  lemma LocksAcceptor(s: State)
    requires Shaped(s) && AcceptorEnabled(s) && Locks(s)
    ensures Locks(AcceptorDo(s))
  {
  }

  lemma TableLockThread(s: State, t: nat, e: Event)
    requires Shaped(s) && t < |s.threads| && ThreadEnabled(s, t) && TableLock(s)
    ensures TableLock(ThreadDo(s, t, e))
  {
  }

  lemma BufferLockThread(s: State, t: nat, e: Event)
    requires Shaped(s) && t < |s.threads| && ThreadEnabled(s, t) && BufferLock(s)
    ensures BufferLock(ThreadDo(s, t, e))
  {
  }

  lemma LocksThread(s: State, t: nat, e: Event)
    requires Shaped(s) && t < |s.threads| && ThreadEnabled(s, t) && Locks(s)
    ensures Locks(ThreadDo(s, t, e))
  {
    TableLockThread(s, t, e);
    BufferLockThread(s, t, e);
  }

  lemma LocksBalancer(s: State)
    requires Locks(s)
    ensures Locks(BalancerDo(s))
  {
  }

  lemma MessagesAcceptor(s: State)
    requires Shaped(s) && AcceptorEnabled(s) && Locks(s) && Messages(s)
    ensures Messages(AcceptorDo(s))
  {
  }

  lemma MessagesThread(s: State, t: nat, e: Event)
    requires Shaped(s) && t < |s.threads| && ThreadEnabled(s, t) && Locks(s) && Messages(s)
    ensures Messages(ThreadDo(s, t, e))
  {
  }

  lemma MessagesBalancer(s: State)
    requires Locks(s) && Messages(s)
    ensures Messages(BalancerDo(s))
  {
  }

  lemma CopiesAcceptor(s: State)
    requires Shaped(s) && AcceptorEnabled(s) && Locks(s) && Copies(s)
    ensures Copies(AcceptorDo(s))
  {
  }

  lemma CopiesThread(s: State, t: nat, e: Event)
    requires Shaped(s) && t < |s.threads| && ThreadEnabled(s, t) && Locks(s) && Copies(s)
    ensures Copies(ThreadDo(s, t, e))
  {
  }

  // ----- every registered machine has its thread

  function One(b: bool): nat { if b then 1 else 0 }

  /** How many of the records have this address. */
  ghost function Count(s: seq<Record>, ip: Address): nat {
    if s == [] then 0 else Count(s[..|s| - 1], ip) + One(s[|s| - 1].ip == ip)
  }

  /** Whether the thread is registered in group g under this address: from the moment it is
      started until it has removed a record. */
  ghost predicate Registered(th: Thread, g: nat, ip: Address) {
    match th
    case Gone => false
    case Starting(_, rec) => rec.service == g && rec.ip == ip
    case _ => th.vm.service == g && th.vm.ip == ip
  }

  ghost function CountThreads(threads: seq<Thread>, g: nat, ip: Address): nat {
    if threads == [] then 0 else
      CountThreads(threads[..|threads| - 1], g, ip) + One(Registered(threads[|threads| - 1], g, ip))
  }

  ghost predicate Unregistered(a: Acceptor, g: nat, ip: Address) {
    Unstarted(a) && a.rec.service == g && a.rec.ip == ip
  }

  ghost function InTable(g: Group, ip: Address): nat
    requires g.current <= |g.slots|
  {
    Count(g.slots[..g.current], ip)
  }

  ghost predicate Balanced(s: State, g: nat, ip: Address)
    requires Shaped(s) && g < GROUPS
  {
    InTable(s.groups[g], ip) == CountThreads(s.threads, g, ip) + One(Unregistered(s.acceptor, g, ip))
  }

  /** Each table holds each address as many times as there are live threads for it. */
  ghost predicate Tables(s: State)
    requires Shaped(s)
  {
    forall g, ip {:trigger Balanced(s, g, ip)} :: 0 <= g < GROUPS ==> Balanced(s, g, ip)
  }

  lemma {:induction false} CountUpdate(s: seq<Record>, i: nat, rec: Record, ip: Address)
    requires i < |s|
    ensures Count(s[i := rec], ip) + One(s[i].ip == ip) == Count(s, ip) + One(rec.ip == ip)
    decreases |s|
  {
    var n := |s| - 1;
    if i == n {
      assert s[i := rec][..n] == s[..n];
    } else {
      CountUpdate(s[..n], i, rec, ip);
      assert s[i := rec][..n] == s[..n][i := rec];
    }
  }

  lemma {:induction false} ThreadUpdate(threads: seq<Thread>, t: nat, th: Thread, g: nat, ip: Address)
    requires t < |threads|
    ensures CountThreads(threads[t := th], g, ip) + One(Registered(threads[t], g, ip))
         == CountThreads(threads, g, ip) + One(Registered(th, g, ip))
    ensures One(Registered(threads[t], g, ip)) <= CountThreads(threads, g, ip)
    decreases |threads|
  {
    var n := |threads| - 1;
    if t == n {
      assert threads[t := th][..n] == threads[..n];
    } else {
      ThreadUpdate(threads[..n], t, th, g, ip);
      assert threads[t := th][..n] == threads[..n][t := th];
    }
  }

  lemma ThreadMore(threads: seq<Thread>, th: Thread, g: nat, ip: Address)
    ensures CountThreads(threads + [th], g, ip) == CountThreads(threads, g, ip) + One(Registered(th, g, ip))
  {
    assert (threads + [th])[..|threads|] == threads;
  }

  lemma AppendCount(g: Group, rec: Record, ip: Address)
    requires g.current <= |g.slots| && |g.slots| >= 1
    ensures InTable(Append(g, rec), ip) == InTable(g, ip) + One(rec.ip == ip)
  {
    var used := g.slots[..g.current];
    assert (used + [rec])[..|used|] == used;
  }

  lemma {:induction false} CountFirst(s: seq<Record>, ip: Address)
    requires s != []
    ensures Count(s, ip) == One(s[0].ip == ip) + Count(s[1..], ip)
    decreases |s|
  {
    var n := |s| - 1;
    if n > 0 {
      CountFirst(s[..n], ip);
      assert s[..n][1..] == s[1..][..n - 1];
    } else {
      assert s[..0] == [] && s[1..] == [];
    }
  }

  lemma {:induction false} FindIpFinds(s: seq<Record>, ip: Address)
    ensures FindIp(s, ip) < |s| <==> Count(s, ip) > 0
    decreases |s|
  {
    if s != [] {
      FindIpFinds(s[1..], ip);
      CountFirst(s, ip);
    }
  }

  /** Removing takes away one record with the address, when there is one, and no other. */
  lemma RemoveCount(g: Group, gone: Address, ip: Address)
    requires g.current <= |g.slots|
    ensures InTable(g, gone) > 0 ==> InTable(Remove(g, gone), ip) == InTable(g, ip) - One(gone == ip)
    ensures InTable(g, gone) == 0 ==> Remove(g, gone) == g
    ensures Remove(g, gone).current == g.current - One(InTable(g, gone) > 0)
  {
    var used := g.slots[..g.current];
    FindIpFinds(used, gone);
    var i := FindIp(used, gone);
    if i < g.current {
      var n := g.current - 1;
      var last := used[n];
      CountUpdate(used, i, last, ip);
      var swapped := used[i := last];
      assert g.slots[i := g.slots[n]][..n] == swapped[..n];
      assert Remove(g, gone).slots[..n] == swapped[..n];
    }
  }

  lemma PromoteCount(g: Group, ip: Address)
    requires g.current <= |g.slots|
    ensures InTable(Promote(g), ip) == InTable(g, ip)
  {
    var used := g.slots[..g.current];
    var i := FindStandBy(used);
    if i < g.current {
      var rec := used[i].(state := Active);
      CountUpdate(used, i, rec, ip);
      assert Promote(g).slots[..g.current] == used[i := rec];
    }
  }

  lemma GroupsAcceptor(s: State, g: nat, ip: Address)
    requires Shaped(s) && AcceptorEnabled(s) && Shaped(AcceptorDo(s)) && g < GROUPS
    ensures InTable(AcceptorDo(s).groups[g], ip)
         == InTable(s.groups[g], ip)
           + One(s.acceptor.Storing? && s.acceptor.rec.service == g && s.acceptor.rec.ip == ip)
  {
    if s.acceptor.Storing? {
      AppendCount(s.groups[s.acceptor.rec.service], s.acceptor.rec, ip);
    }
  }

  lemma ThreadsAcceptor(s: State, g: nat, ip: Address)
    requires Shaped(s) && AcceptorEnabled(s)
    ensures CountThreads(AcceptorDo(s).threads, g, ip)
         == CountThreads(s.threads, g, ip)
           + One(s.acceptor.Spawning? && s.acceptor.rec.service == g && s.acceptor.rec.ip == ip)
  {
    if s.acceptor.Spawning? {
      ThreadMore(s.threads, Starting(s.acceptor.index, s.acceptor.rec), g, ip);
    }
  }

  lemma UnregisteredAcceptor(s: State, g: nat, ip: Address)
    requires Shaped(s) && AcceptorEnabled(s)
    ensures
      var a, after := s.acceptor, AcceptorDo(s).acceptor;
      One(Unregistered(after, g, ip)) + One(a.Spawning? && a.rec.service == g && a.rec.ip == ip)
        == One(Unregistered(a, g, ip)) + One(a.Storing? && a.rec.service == g && a.rec.ip == ip)
  {
  }

  lemma BalancedAcceptor(s: State, g: nat, ip: Address)
    requires Shaped(s) && AcceptorEnabled(s) && Shaped(AcceptorDo(s)) && g < GROUPS && Balanced(s, g, ip)
    ensures Balanced(AcceptorDo(s), g, ip)
  {
    GroupsAcceptor(s, g, ip);
    ThreadsAcceptor(s, g, ip);
    UnregisteredAcceptor(s, g, ip);
  }

  /** A removal finds a record with the thread's address. */
  lemma RemovalFinds(s: State, t: nat)
    requires Shaped(s) && t < |s.threads| && s.threads[t].Removing? && Tables(s)
    ensures InTable(s.groups[s.threads[t].vm.service], s.threads[t].vm.ip) > 0
  {
    var vm := s.threads[t].vm;
    assert Balanced(s, vm.service, vm.ip);
    ThreadUpdate(s.threads, t, Gone, vm.service, vm.ip);
  }

  lemma GroupsThread(s: State, t: nat, e: Event, g: nat, ip: Address)
    requires Shaped(s) && t < |s.threads| && ThreadEnabled(s, t) && Shaped(ThreadDo(s, t, e)) && g < GROUPS && Tables(s)
    ensures InTable(ThreadDo(s, t, e).groups[g], ip)
         == InTable(s.groups[g], ip) - One(s.threads[t].Removing? && Registered(s.threads[t], g, ip))
  {
    match s.threads[t]
    case Switching(vm) => PromoteCount(s.groups[vm.service], ip);
    case Removing(vm) =>
      RemovalFinds(s, t);
      RemoveCount(s.groups[vm.service], vm.ip, ip);
    case _ =>
  }

  lemma ThreadsThread(s: State, t: nat, e: Event, g: nat, ip: Address)
    requires Shaped(s) && t < |s.threads| && ThreadEnabled(s, t) && Locks(s) && Copies(s)
    ensures CountThreads(ThreadDo(s, t, e).threads, g, ip)
         == CountThreads(s.threads, g, ip) - One(s.threads[t].Removing? && Registered(s.threads[t], g, ip))
  {
    SameRegistration(s, t, e, g, ip);
    ThreadUpdate(s.threads, t, ThreadDo(s, t, e).threads[t], g, ip);
    var after := ThreadDo(s, t, e).threads;
    assert after == s.threads[t := after[t]];
  }

  lemma SameRegistration(s: State, t: nat, e: Event, g: nat, ip: Address)
    requires Shaped(s) && t < |s.threads| && ThreadEnabled(s, t) && Locks(s) && Copies(s)
    ensures |ThreadDo(s, t, e).threads| == |s.threads|
    ensures Registered(ThreadDo(s, t, e).threads[t], g, ip) <==>
      !s.threads[t].Removing? && Registered(s.threads[t], g, ip)
  {
  }

  lemma BalancedThread(s: State, t: nat, e: Event, g: nat, ip: Address)
    requires Shaped(s) && t < |s.threads| && ThreadEnabled(s, t) && Locks(s) && Copies(s) && Shaped(ThreadDo(s, t, e))
    requires g < GROUPS && Balanced(s, g, ip) && Tables(s)
    ensures Balanced(ThreadDo(s, t, e), g, ip)
  {
    GroupsThread(s, t, e, g, ip);
    ThreadsThread(s, t, e, g, ip);
  }

  // ----- runs

  ghost predicate Invariant(s: State) {
    Shaped(s) && Locks(s) && Messages(s) && Copies(s) && Tables(s)
  }

  lemma InitialInvariant()
    ensures Invariant(Initial())
  {
    forall g, ip | 0 <= g < GROUPS ensures Balanced(Initial(), g, ip) {
      assert Initial().groups[g].slots[..0] == [];
    }
  }

  lemma StepKeeps(s: State, a: Action)
    requires Invariant(s) && Enabled(s, a)
    ensures Invariant(Do(s, a))
  {
    match a
    case Connect(rec) =>
      ConnectKeeps(s, rec);
    case AcceptorStep =>
      AcceptorKeeps(s);
    case ThreadStep(t, e) =>
      ThreadKeeps(s, t, e);
    case BalancerStep =>
      BalancerKeeps(s);
  }

  lemma ConnectKeeps(s: State, rec: Record)
    requires Invariant(s) && Enabled(s, Connect(rec))
    ensures Invariant(Do(s, Connect(rec)))
  {
    var after := Do(s, Connect(rec));
    forall g, ip | 0 <= g < GROUPS ensures Balanced(after, g, ip) {
      assert Balanced(s, g, ip);
    }
  }

  lemma AcceptorKeeps(s: State)
    requires Invariant(s) && AcceptorEnabled(s)
    ensures Invariant(AcceptorDo(s))
  {
    ShapedAcceptor(s);
    LocksAcceptor(s);
    MessagesAcceptor(s);
    CopiesAcceptor(s);
    forall g, ip | 0 <= g < GROUPS ensures Balanced(AcceptorDo(s), g, ip) {
      BalancedAcceptor(s, g, ip);
    }
  }

  lemma ThreadKeeps(s: State, t: nat, e: Event)
    requires Invariant(s) && t < |s.threads| && ThreadEnabled(s, t)
    ensures Invariant(ThreadDo(s, t, e))
  {
    ShapedThread(s, t, e);
    LocksThread(s, t, e);
    MessagesThread(s, t, e);
    CopiesThread(s, t, e);
    forall g, ip | 0 <= g < GROUPS ensures Balanced(ThreadDo(s, t, e), g, ip) {
      BalancedThread(s, t, e, g, ip);
    }
  }

  lemma BalancerKeeps(s: State)
    requires Invariant(s)
    ensures Invariant(BalancerDo(s))
  {
    LocksBalancer(s);
    MessagesBalancer(s);
    forall g, ip | 0 <= g < GROUPS ensures Balanced(BalancerDo(s), g, ip) {
      assert Balanced(s, g, ip);
    }
  }

  /** The states of a run that takes the actions one after another. */
  ghost predicate IsRun(states: seq<State>, actions: seq<Action>) {
    && |states| == |actions| + 1 && states[0] == Initial()
    && forall i {:trigger StepAt(states, actions, i)} :: 0 <= i < |actions| ==> StepAt(states, actions, i)
  }

  ghost predicate StepAt(states: seq<State>, actions: seq<Action>, i: nat)
    requires i < |actions| && |states| == |actions| + 1
  {
    Shaped(states[i]) && Enabled(states[i], actions[i]) && states[i + 1] == Do(states[i], actions[i])
  }

  lemma {:induction false} RunKeeps(states: seq<State>, actions: seq<Action>, i: nat)
    requires IsRun(states, actions) && i <= |actions|
    ensures Invariant(states[i])
    decreases i
  {
    if i == 0 {
      InitialInvariant();
    } else {
      RunKeeps(states, actions, i - 1);
      assert StepAt(states, actions, i - 1);
      StepKeeps(states[i - 1], actions[i - 1]);
    }
  }

  /** In every run: what the balancer has been sent is what was announced, in order, with at
      most the last message still to come; each thread has copied exactly the record stored for
      it; the tables never overflow; and each address is in its table as often as there are
      threads for it. */
  lemma Safety(states: seq<State>, actions: seq<Action>, i: nat)
    requires IsRun(states, actions) && i <= |actions|
    ensures Shaped(states[i])
    ensures states[i].sent == states[i].announced
         || (states[i].flag && states[i].announced == states[i].sent + [states[i].buffer])
    ensures states[i].copied == states[i].stored
         || (|states[i].stored| > 0 && states[i].copied == states[i].stored[..|states[i].stored| - 1])
    ensures forall g :: 0 <= g < GROUPS ==> states[i].groups[g].current <= |states[i].groups[g].slots|
    ensures states[i].acceptor == Accepting ==> forall g, ip :: 0 <= g < GROUPS ==>
      InTable(states[i].groups[g], ip) == CountThreads(states[i].threads, g, ip)
  {
    RunKeeps(states, actions, i);
    var s := states[i];
    if s.acceptor == Accepting {
      forall g, ip | 0 <= g < GROUPS ensures InTable(s.groups[g], ip) == CountThreads(s.threads, g, ip) {
        assert Balanced(s, g, ip);
      }
    }
  }

  // ----- progress

  /** The step by which whoever holds the message buffer comes nearer to releasing it. */
  ghost function BufferHelper(s: State): Action {
    match s.manage
    case ByAcceptor => AcceptorStep
    case ByThread(t) => ThreadStep(t, Features)
    case _ => BalancerStep
  }

  /** The step that brings the release of the tables nearer: the holder's own, or, when that is
      the accepting thread waiting for the message buffer, the buffer holder's. */
  ghost function TableHelper(s: State): Action {
    match s.mutex
    case ByThread(t) => ThreadStep(t, Features)
    case _ => if s.acceptor.WantBuffer? && s.manage != Free then BufferHelper(s) else AcceptorStep
  }

  /** How many steps of its holders the message buffer is away from being released. */
  ghost function BufferWork(s: State): nat
    requires Shaped(s)
  {
    match s.manage
    case Free => 0
    case ByAcceptor => if s.acceptor.Announcing? then 9 - s.acceptor.k else 0
    case ByThread(t) => if t < |s.threads| && s.threads[t].Reporting? then 9 - s.threads[t].k else 0
    case ByBalancer => match s.balancer case Polling => 4 case Sending => 3 case Lowering => 2 case Releasing => 1
  }

  /** a is a step of the holder of the message buffer. */
  ghost predicate Acts(s: State, a: Action) {
    match s.manage
    case Free => false
    case ByAcceptor => a == AcceptorStep
    case ByThread(t) => a.ThreadStep? && a.t == t
    case ByBalancer => a == BalancerStep
  }

  /** a is a step of the holder of the tables, or of the holder of the message buffer that the
      holder of the tables is waiting for. */
  ghost predicate TableActs(s: State, a: Action) {
    match s.mutex
    case ByAcceptor => a == AcceptorStep || (s.acceptor.WantBuffer? && Acts(s, a))
    case ByThread(t) => a.ThreadStep? && a.t == t
    case _ => false
  }

  /** No deadlock, in spite of the opposite orders in which the mutexes are taken: whenever one
      is held, a step that counts towards its release can be taken. */
  lemma NoDeadlock(states: seq<State>, actions: seq<Action>, i: nat)
    requires IsRun(states, actions) && i <= |actions|
    ensures Shaped(states[i])
    ensures states[i].manage != Free ==>
      Enabled(states[i], BufferHelper(states[i])) && Acts(states[i], BufferHelper(states[i]))
    ensures states[i].mutex != Free ==>
      Enabled(states[i], TableHelper(states[i])) && TableActs(states[i], TableHelper(states[i]))
  {
    RunKeeps(states, actions, i);
    var s := states[i];
    if s.manage != Free {
      BufferMoves(s);
    }
    if s.mutex != Free && TableHelper(s) != BufferHelper(s) {
      TableMoves(s);
    }
  }

  lemma BufferMoves(s: State)
    requires Invariant(s) && s.manage != Free
    ensures Enabled(s, BufferHelper(s)) && Acts(s, BufferHelper(s))
  {
  }

  lemma TableMoves(s: State)
    requires Invariant(s) && s.mutex != Free && TableHelper(s) != BufferHelper(s)
    ensures Enabled(s, TableHelper(s)) && TableActs(s, TableHelper(s))
  {
  }

  /** A step of the holder brings the release of the buffer nearer, and no other step defers it. */
  lemma BufferProgress(s: State, a: Action, s': State)
    requires Shaped(s) && Locks(s) && Enabled(s, a) && s.manage != Free && s' == Do(s, a) && Shaped(s')
    ensures BufferWork(s') <= BufferWork(s) <= 9
    ensures Acts(s, a) ==> BufferWork(s') < BufferWork(s)
  {
    match a
    case Connect(rec) =>
    case AcceptorStep => BufferAcceptor(s);
    case ThreadStep(t, e) => BufferThread(s, t, e);
    case BalancerStep =>
  }

  lemma BufferAcceptor(s: State)
    requires Shaped(s) && Locks(s) && AcceptorEnabled(s) && s.manage != Free && Shaped(AcceptorDo(s))
    ensures BufferWork(AcceptorDo(s)) <= BufferWork(s) <= 9
    ensures s.manage == ByAcceptor ==> BufferWork(AcceptorDo(s)) < BufferWork(s)
  {
  }

  lemma BufferThread(s: State, t: nat, e: Event)
    requires Shaped(s) && Locks(s) && t < |s.threads| && ThreadEnabled(s, t) && s.manage != Free &&
      Shaped(ThreadDo(s, t, e))
    ensures BufferWork(ThreadDo(s, t, e)) <= BufferWork(s) <= 9
    ensures s.manage == ByThread(t) ==> BufferWork(ThreadDo(s, t, e)) < BufferWork(s)
  {
    assert s.manage == ByThread(t) <==> s.threads[t].Reporting?;
  }

  ghost function HolderSteps(states: seq<State>, actions: seq<Action>, i: nat, j: nat): nat
    requires i <= j <= |actions| <= |states|
  {
    if i == j then 0 else HolderSteps(states, actions, i, j - 1) + One(Acts(states[j - 1], actions[j - 1]))
  }

  /** However the threads are scheduled, the message buffer is not kept beyond nine steps of its
      successive holders. */
  lemma {:induction false} BufferReleased(states: seq<State>, actions: seq<Action>, i: nat, j: nat)
    requires IsRun(states, actions) && i <= j <= |actions|
    requires forall k :: i <= k < j ==> states[k].manage != Free
    ensures Shaped(states[i]) && Shaped(states[j])
    ensures HolderSteps(states, actions, i, j) + BufferWork(states[j]) <= BufferWork(states[i])
    ensures HolderSteps(states, actions, i, j) <= 9
    decreases j
  {
    RunShaped(states, actions, i);
    BufferBound(states[i]);
    if i < j {
      BufferReleased(states, actions, i, j - 1);
      BufferStep(states, actions, j - 1);
    }
  }

  lemma RunShaped(states: seq<State>, actions: seq<Action>, i: nat)
    requires IsRun(states, actions) && i <= |actions|
    ensures Shaped(states[i])
  {
    RunKeeps(states, actions, i);
  }

  lemma BufferStep(states: seq<State>, actions: seq<Action>, k: nat)
    requires IsRun(states, actions) && k < |actions| && states[k].manage != Free
    ensures Shaped(states[k]) && Shaped(states[k + 1])
    ensures BufferWork(states[k + 1]) + One(Acts(states[k], actions[k])) <= BufferWork(states[k])
  {
    RunKeeps(states, actions, k);
    RunShaped(states, actions, k + 1);
    assert StepAt(states, actions, k);
    BufferProgress(states[k], actions[k], states[k + 1]);
  }

  lemma BufferBound(s: State)
    requires Shaped(s)
    ensures BufferWork(s) <= 9
  {
  }

  // ----- the tables are released too

  /** How many times a thread can still take the message buffer before it needs the tables. */
  ghost function Turns(th: Thread): nat {
    match th
    case Running(_) => 1
    case WantReport(_, op) => if op == Rej then 2 else 1
    case Reporting(_, op, _) => if op == Rej then 1 else 0
    case _ => 0
  }

  ghost function TurnsOf(threads: seq<Thread>): (r: nat)
    ensures r <= 2 * |threads|
  {
    if threads == [] then 0 else TurnsOf(threads[..|threads| - 1]) + Turns(threads[|threads| - 1])
  }

  lemma {:induction false} TurnsUpdate(threads: seq<Thread>, t: nat, th: Thread)
    requires t < |threads|
    ensures TurnsOf(threads[t := th]) + Turns(threads[t]) == TurnsOf(threads) + Turns(th)
    decreases |threads|
  {
    var n := |threads| - 1;
    if t == n {
      assert threads[t := th][..n] == threads[..n];
    } else {
      TurnsUpdate(threads[..n], t, th);
      assert threads[t := th][..n] == threads[..n][t := th];
    }
  }

  /** What the accepting thread has yet to do with the tables locked, its own use of the message
      buffer included as long as it does not have it. */
  ghost function AcceptorWork(a: Acceptor): nat {
    match a
    case Storing(_) => 13
    case WantBuffer(_, _) => 12
    case Announcing(_, _, _) => 2
    case Spawning(_, _) => 2
    case _ => 0
  }

  /** How many steps of its holders the tables are away from being released. While the accepting
      thread has them it may wait for the message buffer, but no thread can take that more than
      twice without asking for the tables. */
  ghost function TableWork(s: State): nat
    requires Shaped(s)
  {
    match s.mutex
    case ByAcceptor => AcceptorWork(s.acceptor) + BufferWork(s) + 9 * TurnsOf(s.threads)
    case ByThread(_) => 1
    case _ => 0
  }

  lemma TableProgress(s: State, a: Action, s': State)
    requires Shaped(s) && Locks(s) && Enabled(s, a) && s.mutex != Free && s' == Do(s, a) && Shaped(s')
    ensures TableWork(s') + One(TableActs(s, a)) <= TableWork(s)
  {
    match a
    case Connect(rec) =>
    case AcceptorStep => TableAcceptor(s);
    case ThreadStep(t, e) => TableThread(s, t, e);
    case BalancerStep =>
  }

  lemma TableAcceptor(s: State)
    requires Shaped(s) && Locks(s) && AcceptorEnabled(s) && s.mutex != Free && Shaped(AcceptorDo(s))
    ensures s.mutex == ByAcceptor && TableWork(AcceptorDo(s)) < TableWork(s)
  {
  }

  /** While the accepting thread has the tables, a step of another thread uses up turns. */
  lemma TurnsThread(s: State, t: nat, e: Event)
    requires Shaped(s) && Locks(s) && t < |s.threads| && ThreadEnabled(s, t) && s.mutex == ByAcceptor
    ensures |ThreadDo(s, t, e).threads| == |s.threads|
    ensures
      var th, th' := s.threads[t], ThreadDo(s, t, e).threads[t];
      Turns(th') <= Turns(th) && (th.WantReport? ==> Turns(th') < Turns(th))
  {
  }

  lemma TableThreadWaiting(s: State, t: nat, e: Event)
    requires Shaped(s) && Locks(s) && t < |s.threads| && ThreadEnabled(s, t) && s.mutex == ByAcceptor
    requires Shaped(ThreadDo(s, t, e))
    ensures TableWork(ThreadDo(s, t, e)) + One(TableActs(s, ThreadStep(t, e))) <= TableWork(s)
  {
    var after := ThreadDo(s, t, e);
    TurnsThread(s, t, e);
    TurnsUpdate(s.threads, t, after.threads[t]);
    assert after.threads == s.threads[t := after.threads[t]];
    assert after.mutex == ByAcceptor && after.acceptor == s.acceptor;
    BufferChange(s, t, e);
  }

  /** A thread's step takes the free buffer, or works on what it holds, or leaves it alone. */
  lemma BufferChange(s: State, t: nat, e: Event)
    requires Shaped(s) && Locks(s) && t < |s.threads| && ThreadEnabled(s, t) && Shaped(ThreadDo(s, t, e))
    ensures
      var work, after := BufferWork(s), BufferWork(ThreadDo(s, t, e));
      if s.threads[t].WantReport? then work == 0 && after == 9 && s.manage == Free
      else after + One(s.manage == ByThread(t)) <= work
  {
    assert s.manage == ByThread(t) <==> s.threads[t].Reporting?;
  }

  lemma TableThread(s: State, t: nat, e: Event)
    requires Shaped(s) && Locks(s) && t < |s.threads| && ThreadEnabled(s, t) && s.mutex != Free
    requires Shaped(ThreadDo(s, t, e))
    ensures TableWork(ThreadDo(s, t, e)) + One(TableActs(s, ThreadStep(t, e))) <= TableWork(s)
  {
    if s.mutex == ByAcceptor {
      TableThreadWaiting(s, t, e);
    } else {
      assert s.mutex == ByThread(t) <==> HoldsTable(s.threads[t]);
    }
  }

  ghost function TableSteps(states: seq<State>, actions: seq<Action>, i: nat, j: nat): nat
    requires i <= j <= |actions| <= |states|
  {
    if i == j then 0 else TableSteps(states, actions, i, j - 1) + One(TableActs(states[j - 1], actions[j - 1]))
  }

  /** However the threads are scheduled, the tables are not kept beyond a number of steps of
      their holders, and of the holders of the message buffer these wait for, that is linear in
      the number of threads: an accepting thread that waits for the buffer is not starved. */
  lemma {:induction false} TablesReleased(states: seq<State>, actions: seq<Action>, i: nat, j: nat)
    requires IsRun(states, actions) && i <= j <= |actions|
    requires forall k :: i <= k < j ==> states[k].mutex != Free
    ensures Shaped(states[i]) && Shaped(states[j])
    ensures TableSteps(states, actions, i, j) + TableWork(states[j]) <= TableWork(states[i])
    ensures TableSteps(states, actions, i, j) <= 22 + 18 * |states[i].threads|
    decreases j
  {
    RunShaped(states, actions, i);
    BufferBound(states[i]);
    if i < j {
      TablesReleased(states, actions, i, j - 1);
      TableStep(states, actions, j - 1);
    }
  }

  lemma TableStep(states: seq<State>, actions: seq<Action>, k: nat)
    requires IsRun(states, actions) && k < |actions| && states[k].mutex != Free
    ensures Shaped(states[k]) && Shaped(states[k + 1])
    ensures TableWork(states[k + 1]) + One(TableActs(states[k], actions[k])) <= TableWork(states[k])
  {
    RunKeeps(states, actions, k);
    RunShaped(states, actions, k + 1);
    assert StepAt(states, actions, k);
    TableProgress(states[k], actions[k], states[k + 1]);
  }

  /** A thread that copied a record standing by never serves its machine, whatever is done to
      the table: promotions do not reach its copy. */
  lemma {:induction false} StandbyForever(states: seq<State>, actions: seq<Action>, i: nat, j: nat, t: nat)
    requires IsRun(states, actions) && i <= j <= |actions| && t < |states[i].threads|
    requires states[i].threads[t].Running? && states[i].threads[t].vm.state != Active
    ensures t < |states[j].threads| && states[j].threads[t] == states[i].threads[t]
    decreases j
  {
    if i < j {
      StandbyForever(states, actions, i, j - 1, t);
      assert StepAt(states, actions, j - 1);
    }
  }

  // ----- every record standing by has a thread that ignores its machine

  ghost function InUse(g: Group): multiset<Record>
    requires g.current <= |g.slots|
  {
    multiset(g.slots[..g.current])
  }

  /** The thread serves, or is about to serve, exactly this copy. */
  ghost predicate Serves(th: Thread, rec: Record) {
    match th
    case Starting(_, expected) => expected == rec
    case Running(vm) => vm == rec
    case _ => false
  }

  ghost function CountServing(threads: seq<Thread>, rec: Record): nat {
    if threads == [] then 0 else
      CountServing(threads[..|threads| - 1], rec) + One(Serves(threads[|threads| - 1], rec))
  }

  /** The table of group g holds a record standing by at most as often as threads serve it, and
      only in the group of its service. */
  ghost predicate Served(s: State, g: nat, rec: Record)
    requires Shaped(s) && g < GROUPS
  {
    InUse(s.groups[g])[rec]
      <= if rec.service == g
         then CountServing(s.threads, rec) + One(Unstarted(s.acceptor) && s.acceptor.rec == rec)
         else 0
  }

  ghost predicate StandbyServed(s: State)
    requires Shaped(s)
  {
    forall g, rec: Record {:trigger Served(s, g, rec)} :: 0 <= g < GROUPS && rec.state == StandBy ==> Served(s, g, rec)
  }

  lemma {:induction false} ServingUpdate(threads: seq<Thread>, t: nat, th: Thread, rec: Record)
    requires t < |threads|
    ensures CountServing(threads[t := th], rec) + One(Serves(threads[t], rec))
         == CountServing(threads, rec) + One(Serves(th, rec))
    decreases |threads|
  {
    var n := |threads| - 1;
    if t == n {
      assert threads[t := th][..n] == threads[..n];
    } else {
      ServingUpdate(threads[..n], t, th, rec);
      assert threads[t := th][..n] == threads[..n][t := th];
    }
  }

  lemma ServingMore(threads: seq<Thread>, th: Thread, rec: Record)
    ensures CountServing(threads + [th], rec) == CountServing(threads, rec) + One(Serves(th, rec))
  {
    assert (threads + [th])[..|threads|] == threads;
  }

  lemma AppendUse(g: Group, rec: Record)
    requires g.current <= |g.slots| && |g.slots| >= 1
    ensures InUse(Append(g, rec)) == InUse(g) + multiset{rec}
  {
  }

  lemma SwapLast(used: seq<Record>, i: nat, rec: Record)
    requires i < |used|
    ensures multiset(used[i := used[|used| - 1]][..|used| - 1])[rec] <= multiset(used)[rec]
  {
    var n := |used| - 1;
    var last := used[n];
    var swapped := used[i := last];
    assert swapped == swapped[..n] + [last];
    assert multiset(swapped)[rec] == multiset(swapped[..n])[rec] + multiset{last}[rec];
    assert multiset(swapped) == multiset(used) - multiset{used[i]} + multiset{last};
  }

  /** A removal adds no record. */
  lemma RemoveUse(g: Group, ip: Address, rec: Record)
    requires g.current <= |g.slots|
    ensures InUse(Remove(g, ip))[rec] <= InUse(g)[rec]
  {
    var used := g.slots[..g.current];
    var i := FindIp(used, ip);
    if i < g.current {
      var n := g.current - 1;
      var swapped := used[i := used[n]][..n];
      SwapLast(used, i, rec);
      assert Remove(g, ip).slots[..n] == swapped;
      assert InUse(Remove(g, ip)) == multiset(swapped);
    }
  }

  /** A promotion adds no record standing by. */
  lemma PromoteUse(g: Group, rec: Record)
    requires g.current <= |g.slots| && rec.state == StandBy
    ensures InUse(Promote(g))[rec] <= InUse(g)[rec]
  {
    var used := g.slots[..g.current];
    var i := FindStandBy(used);
    if i < g.current {
      var now := used[i].(state := Active);
      assert Promote(g).slots[..g.current] == used[i := now];
      assert multiset(used[i := now]) == InUse(g) - multiset{used[i]} + multiset{now};
    }
  }

  lemma ServedAcceptor(s: State, g: nat, rec: Record)
    requires Shaped(s) && AcceptorEnabled(s) && Shaped(AcceptorDo(s)) && g < GROUPS && Served(s, g, rec)
    ensures Served(AcceptorDo(s), g, rec)
  {
    UseAcceptor(s, g, rec);
    ServingAcceptor(s, rec);
  }

  lemma UseAcceptor(s: State, g: nat, rec: Record)
    requires Shaped(s) && AcceptorEnabled(s) && Shaped(AcceptorDo(s)) && g < GROUPS
    ensures InUse(AcceptorDo(s).groups[g])[rec]
         == InUse(s.groups[g])[rec] + One(s.acceptor.Storing? && s.acceptor.rec == rec && rec.service == g)
  {
    if s.acceptor.Storing? {
      AppendUse(s.groups[s.acceptor.rec.service], s.acceptor.rec);
    }
  }

  lemma ServingAcceptor(s: State, rec: Record)
    requires Shaped(s) && AcceptorEnabled(s)
    ensures
      var a, after := s.acceptor, AcceptorDo(s);
      CountServing(after.threads, rec) + One(Unstarted(after.acceptor) && after.acceptor.rec == rec)
        == CountServing(s.threads, rec) + One((Unstarted(a) || a.Storing?) && a.rec == rec)
  {
    if s.acceptor.Spawning? {
      ServingMore(s.threads, Starting(s.acceptor.index, s.acceptor.rec), rec);
    }
  }

  lemma ServedThread(s: State, t: nat, e: Event, g: nat, rec: Record)
    requires Invariant(s) && t < |s.threads| && ThreadEnabled(s, t) && Shaped(ThreadDo(s, t, e))
    requires g < GROUPS && rec.state == StandBy && Served(s, g, rec)
    ensures Served(ThreadDo(s, t, e), g, rec)
  {
    var after := ThreadDo(s, t, e);
    ServingThread(s, t, e, rec);
    UseThread(s, t, e, g, rec);
  }

  /** No thread serving a record standing by ever stops. */
  lemma ServingThread(s: State, t: nat, e: Event, rec: Record)
    requires Invariant(s) && t < |s.threads| && ThreadEnabled(s, t) && rec.state == StandBy
    ensures CountServing(ThreadDo(s, t, e).threads, rec) >= CountServing(s.threads, rec)
  {
    var after := ThreadDo(s, t, e).threads;
    ServingUpdate(s.threads, t, after[t], rec);
    assert after == s.threads[t := after[t]];
  }

  lemma UseThread(s: State, t: nat, e: Event, g: nat, rec: Record)
    requires Shaped(s) && t < |s.threads| && ThreadEnabled(s, t) && Shaped(ThreadDo(s, t, e))
    requires g < GROUPS && rec.state == StandBy
    ensures InUse(ThreadDo(s, t, e).groups[g])[rec] <= InUse(s.groups[g])[rec]
  {
    match s.threads[t]
    case Switching(vm) => PromoteUse(s.groups[vm.service], rec);
    case Removing(vm) => RemoveUse(s.groups[vm.service], vm.ip, rec);
    case _ =>
  }

  lemma StandbyStep(s: State, a: Action)
    requires Invariant(s) && Enabled(s, a) && Shaped(Do(s, a)) && StandbyServed(s)
    ensures StandbyServed(Do(s, a))
  {
    forall g, rec: Record | 0 <= g < GROUPS && rec.state == StandBy ensures Served(Do(s, a), g, rec) {
      assert Served(s, g, rec);
      match a
      case AcceptorStep => ServedAcceptor(s, g, rec);
      case ThreadStep(t, e) => ServedThread(s, t, e, g, rec);
      case _ =>
    }
  }

  lemma {:induction false} StandbyInRuns(states: seq<State>, actions: seq<Action>, i: nat)
    requires IsRun(states, actions) && i <= |actions|
    ensures Invariant(states[i]) && StandbyServed(states[i])
    decreases i
  {
    RunKeeps(states, actions, i);
    if i == 0 {
      assert forall g, rec: Record :: 0 <= g < GROUPS ==> Served(Initial(), g, rec);
    } else {
      StandbyInRuns(states, actions, i - 1);
      assert StepAt(states, actions, i - 1);
      StandbyStep(states[i - 1], actions[i - 1]);
    }
  }

  lemma {:induction false} SomeServes(threads: seq<Thread>, rec: Record) returns (u: nat)
    requires CountServing(threads, rec) > 0
    ensures u < |threads| && Serves(threads[u], rec)
    decreases |threads|
  {
    u := |threads| - 1;
    if !Serves(threads[u], rec) {
      u := SomeServes(threads[..u], rec);
    }
  }

  lemma OnlyOne(threads: seq<Thread>, u: nat, v: nat, g: nat, ip: Address)
    requires u < |threads| && v < |threads| && CountThreads(threads, g, ip) <= 1
    requires Registered(threads[u], g, ip) && Registered(threads[v], g, ip)
    ensures u == v
  {
    if u != v {
      ThreadUpdate(threads, u, Gone, g, ip);
      ThreadUpdate(threads[u := Gone], v, Gone, g, ip);
    }
  }

  /** In every run, when a thread promotes a record, some other thread serves exactly that record
      as it was before: that thread goes on ignoring its machine for the rest of the run, though
      the table now calls the machine active. Where the record's address is in its table only
      once, no other thread is registered for it. */
  lemma PromotedIsIgnored(states: seq<State>, actions: seq<Action>, k: nat, t: nat, e: Event) returns (u: nat)
    requires IsRun(states, actions) && k < |actions| && actions[k] == ThreadStep(t, e)
    requires t < |states[k].threads| && states[k].threads[t].Switching?
    requires Shaped(states[k]) && Shaped(states[k + 1])
    requires
      var group := states[k].groups[states[k].threads[t].vm.service];
      FindStandBy(group.slots[..group.current]) < group.current
    ensures
      var g := states[k].threads[t].vm.service;
      var before, after := states[k].groups[g], states[k + 1].groups[g];
      var i := FindStandBy(before.slots[..before.current]);
      var rec := before.slots[i];
      && rec.service == g && after == before.(slots := before.slots[i := rec.(state := Active)])
      && u < |states[k].threads| && u != t
      && (forall j :: k <= j < |states| ==> u < |states[j].threads| && states[j].threads[u] == Running(rec))
      && (InTable(before, rec.ip) == 1 ==>
           forall v :: 0 <= v < |states[k].threads| && Registered(states[k].threads[v], g, rec.ip) ==> v == u)
  {
    var s, g := states[k], states[k].threads[t].vm.service;
    var used := s.groups[g].slots[..s.groups[g].current];
    var rec := used[FindStandBy(used)];
    StandbyInRuns(states, actions, k);
    assert StepAt(states, actions, k);
    assert Served(s, g, rec);
    assert InUse(s.groups[g])[rec] > 0;
    HolderAlone(s, t);
    u := SomeServes(s.threads, rec);
    forall j | k <= j < |states| ensures u < |states[j].threads| && states[j].threads[u] == Running(rec) {
      StandbyForever(states, actions, k, j, u);
    }
    if InTable(s.groups[g], rec.ip) == 1 {
      assert Balanced(s, g, rec.ip);
      forall v | 0 <= v < |s.threads| && Registered(s.threads[v], g, rec.ip) ensures v == u {
        OnlyOne(s.threads, u, v, g, rec.ip);
      }
    }
  }

  /** While a thread promotes, no thread is starting and no record is without its thread. */
  lemma HolderAlone(s: State, t: nat)
    requires Shaped(s) && Locks(s) && t < |s.threads| && s.threads[t].Switching?
    ensures !Unstarted(s.acceptor) && forall u :: 0 <= u < |s.threads| ==> !s.threads[u].Starting?
  {
    assert s.mutex == ByThread(t);
  }
}
