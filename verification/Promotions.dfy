/** What becomes of a promotion outside the controller: the balancer is told of machines that
    were stored active, and of no others, so it never hears of the one that was promoted.
 */
module Promotions {
  import opened ControllerServer
  import LoadBalancer

  // ----- the machines announced are those stored active

  /** The messages that add a machine. */
  ghost function AddsOf(ms: seq<Message>): seq<Message> {
    if ms == [] then [] else
      AddsOf(ms[..|ms| - 1]) + if ms[|ms| - 1].op == Add then [ms[|ms| - 1]] else []
  }

  /** What would announce the records that were active when they were stored. */
  ghost function ActiveAdds(rs: seq<Record>): seq<Message> {
    if rs == [] then [] else
      ActiveAdds(rs[..|rs| - 1]) + if rs[|rs| - 1].state == Active then [AddMessage(rs[|rs| - 1])] else []
  }

  lemma AddsMore(ms: seq<Message>, m: Message)
    ensures AddsOf(ms + [m]) == AddsOf(ms) + if m.op == Add then [m] else []
  {
    assert (ms + [m])[..|ms|] == ms;
  }

  lemma ActiveMore(rs: seq<Record>, rec: Record)
    ensures ActiveAdds(rs + [rec]) == ActiveAdds(rs) + if rec.state == Active then [AddMessage(rec)] else []
  {
    assert (rs + [rec])[..|rs|] == rs;
  }

  /** The accepting thread has stored an active record and not announced it yet. */
  ghost predicate Unannounced(a: Acceptor) {
    a.WantBuffer? || a.Announcing?
  }

  /** Threads never announce a new machine, and the accepting thread announces each active record
      it stores, in order. */
  ghost predicate OnlyStoredAdded(s: State) {
    && (forall t :: 0 <= t < |s.threads| && (s.threads[t].WantReport? || s.threads[t].Reporting?) ==>
         s.threads[t].op != Add)
    && (Unannounced(s.acceptor) ==> s.acceptor.rec.state == Active)
    && ActiveAdds(s.stored)
         == AddsOf(s.announced) + if Unannounced(s.acceptor) then [AddMessage(s.acceptor.rec)] else []
  }

  lemma StoredAcceptor(s: State)
    requires Shaped(s) && AcceptorEnabled(s)
    ensures AcceptorDo(s).threads[..|s.threads|] == s.threads
    ensures forall t :: |s.threads| <= t < |AcceptorDo(s).threads| ==> AcceptorDo(s).threads[t].Starting?
    ensures AcceptorDo(s).stored == if s.acceptor.Storing? then s.stored + [s.acceptor.rec] else s.stored
    ensures AcceptorDo(s).announced == if s.acceptor.Announcing? && s.acceptor.k >= 4
                                       then s.announced + [AddMessage(s.acceptor.rec)] else s.announced
    ensures Unannounced(AcceptorDo(s).acceptor) <==>
      (s.acceptor.Storing? && s.acceptor.rec.state == Active) || s.acceptor.WantBuffer?
      || (s.acceptor.Announcing? && s.acceptor.k < 4)
    ensures Unannounced(AcceptorDo(s).acceptor) ==> AcceptorDo(s).acceptor.rec == s.acceptor.rec
  {
  }

  lemma AddedAcceptor(s: State)
    requires Shaped(s) && AcceptorEnabled(s) && OnlyStoredAdded(s)
    ensures OnlyStoredAdded(AcceptorDo(s))
  {
    var after := AcceptorDo(s);
    StoredAcceptor(s);
    if s.acceptor.Storing? { ActiveMore(s.stored, s.acceptor.rec); }
    if s.acceptor.Announcing? { AddsMore(s.announced, AddMessage(s.acceptor.rec)); }
    forall t | 0 <= t < |after.threads| && (after.threads[t].WantReport? || after.threads[t].Reporting?)
      ensures after.threads[t].op != Add
    {
      assert t < |s.threads| && after.threads[..|s.threads|][t] == s.threads[t];
    }
  }

  /** A thread's step announces nothing, or its report. */
  lemma ThreadAnnounces(s: State, t: nat, e: Event)
    requires Shaped(s) && t < |s.threads| && ThreadEnabled(s, t)
    ensures
      var th, after := s.threads[t], ThreadDo(s, t, e);
      && after.acceptor == s.acceptor && after.stored == s.stored
      && (after.announced == s.announced
          || (th.Reporting? && after.announced == s.announced + [ReportMessage(th.vm, th.op)]))
  {
  }

  lemma ReportsThread(s: State, t: nat, e: Event, u: nat)
    requires Shaped(s) && t < |s.threads| && ThreadEnabled(s, t) && OnlyStoredAdded(s) && u < |s.threads|
    ensures |ThreadDo(s, t, e).threads| == |s.threads|
    ensures var th := ThreadDo(s, t, e).threads[u]; (th.WantReport? || th.Reporting?) ==> th.op != Add
  {
  }

  lemma AnnouncedThread(s: State, t: nat, e: Event)
    requires Shaped(s) && t < |s.threads| && ThreadEnabled(s, t) && OnlyStoredAdded(s)
    ensures AddsOf(ThreadDo(s, t, e).announced) == AddsOf(s.announced)
  {
    ThreadAnnounces(s, t, e);
    if s.threads[t].Reporting? {
      AddsMore(s.announced, ReportMessage(s.threads[t].vm, s.threads[t].op));
    }
  }

  lemma AddedThread(s: State, t: nat, e: Event)
    requires Shaped(s) && t < |s.threads| && ThreadEnabled(s, t) && OnlyStoredAdded(s)
    ensures OnlyStoredAdded(ThreadDo(s, t, e))
  {
    var after := ThreadDo(s, t, e);
    ThreadAnnounces(s, t, e);
    AnnouncedThread(s, t, e);
    ReportsThread(s, t, e, t);
    forall u | 0 <= u < |after.threads| && (after.threads[u].WantReport? || after.threads[u].Reporting?)
      ensures after.threads[u].op != Add
    {
      ReportsThread(s, t, e, u);
    }
  }

  lemma AddedStep(s: State, a: Action)
    requires Shaped(s) && Enabled(s, a) && OnlyStoredAdded(s)
    ensures OnlyStoredAdded(Do(s, a))
  {
    match a
    case AcceptorStep => AddedAcceptor(s);
    case ThreadStep(t, e) => AddedThread(s, t, e);
    case _ =>
  }

  lemma {:induction false} AddedInRuns(states: seq<State>, actions: seq<Action>, i: nat)
    requires IsRun(states, actions) && i <= |actions|
    ensures OnlyStoredAdded(states[i])
    decreases i
  {
    if i > 0 {
      AddedInRuns(states, actions, i - 1);
      assert StepAt(states, actions, i - 1);
      AddedStep(states[i - 1], actions[i - 1]);
    }
  }

  // ----- what the balancer makes of what it is sent

  /** A message as the balancer reads it. */
  function Received(m: Message): LoadBalancer.Message {
    LoadBalancer.Message(m.ip, m.port, m.service,
      match m.op case Add => LoadBalancer.Add case Delete => LoadBalancer.Delete case Rej => LoadBalancer.Rej)
  }

  function ReceivedAll(ms: seq<Message>): (r: seq<LoadBalancer.Message>)
    ensures |r| == |ms|
  {
    seq(|ms|, i requires 0 <= i < |ms| => Received(ms[i]))
  }

  /** No message adds the address. */
  ghost predicate NeverAdded(ms: seq<Message>, ip: Address) {
    forall i :: 0 <= i < |ms| ==> !(ms[i].op == Add && ms[i].ip == ip)
  }

  lemma {:induction false} FoldWithout(ms: seq<Message>, g: nat, ip: Address, port: int)
    requires NeverAdded(ms, ip)
    ensures LoadBalancer.Fold(multiset{}, ReceivedAll(ms), g)[LoadBalancer.Endpoint(ip, port)] == 0
    decreases |ms|
  {
    if ms != [] {
      var n := |ms| - 1;
      FoldWithout(ms[..n], g, ip, port);
      assert ReceivedAll(ms)[..n] == ReceivedAll(ms[..n]);
    }
  }

  /** Every machine added is among those stored active. */
  lemma {:induction false} AddsStored(rs: seq<Record>, ip: Address)
    requires forall i :: 0 <= i < |rs| && rs[i].state == Active ==> rs[i].ip != ip
    ensures forall m :: m in ActiveAdds(rs) ==> m.ip != ip
  {
    if rs != [] { AddsStored(rs[..|rs| - 1], ip); }
  }

  lemma {:induction false} AddsHold(ms: seq<Message>, i: nat)
    requires i < |ms| && ms[i].op == Add
    ensures ms[i] in AddsOf(ms)
    decreases |ms|
  {
    var n := |ms| - 1;
    if i < n {
      AddsHold(ms[..n], i);
      assert ms[..n][i] == ms[i];
    }
  }

  /** In every run, a machine that was never stored active is at no time in the table that the
      balancer makes of what it has been sent, whatever promotions there have been. */
  lemma NeverRouted(states: seq<State>, actions: seq<Action>, i: nat, g: nat, ip: Address, port: int)
    requires IsRun(states, actions) && i <= |actions|
    requires forall k :: 0 <= k < |states[i].stored| && states[i].stored[k].state == Active ==>
      states[i].stored[k].ip != ip
    ensures LoadBalancer.Fold(multiset{}, ReceivedAll(states[i].sent), g)[LoadBalancer.Endpoint(ip, port)] == 0
  {
    var s := states[i];
    AddedInRuns(states, actions, i);
    Safety(states, actions, i);
    AddsStored(s.stored, ip);
    forall k | 0 <= k < |s.sent| ensures !(s.sent[k].op == Add && s.sent[k].ip == ip) {
      assert s.sent[k] == s.announced[k];
      if s.sent[k].op == Add { AddsHold(s.announced, k); }
    }
    FoldWithout(s.sent, g, ip, port);
  }

  // ----- a run with a promotion

  ghost function Last(states: seq<State>): State
    requires states != []
  {
    states[|states| - 1]
  }

  /** What threads have been told, other than that features have come. */
  ghost function Events(actions: seq<Action>): seq<Action> {
    if actions == [] then [] else
      var a := actions[|actions| - 1];
      Events(actions[..|actions| - 1]) + if a.ThreadStep? && a.event != Features then [a] else []
  }

  /** One more action at the end of a run. */
  lemma Take(states: seq<State>, actions: seq<Action>, a: Action) returns (states': seq<State>, actions': seq<Action>)
    requires IsRun(states, actions) && Shaped(Last(states)) && Enabled(Last(states), a)
    ensures IsRun(states', actions') && Last(states') == Do(Last(states), a) && Shaped(Last(states'))
    ensures Events(actions') == Events(actions) + if a.ThreadStep? && a.event != Features then [a] else []
  {
    assert (actions + [a])[..|actions|] == actions;
    states', actions' := states + [Do(Last(states), a)], actions + [a];
    forall i | 0 <= i < |actions'| ensures StepAt(states', actions', i) {
      if i < |actions| {
        assert StepAt(states, actions, i);
      }
    }
    RunKeeps(states', actions', |actions'|);
  }

  /** Nothing is going on. */
  ghost predicate Quiet(s: State) {
    Shaped(s) && s.mutex == Free && s.manage == Free && !s.flag && s.acceptor == Accepting && s.balancer == Polling
  }

  lemma FilledIn(b: Message, m: Message)
    ensures Fill(Fill(Fill(Fill(b, m, 0), m, 1), m, 2), m, 3) == m
  {
  }

  /** The balancer thread sends what is in the buffer and releases it. */
  lemma Sends(states: seq<State>, actions: seq<Action>) returns (states': seq<State>, actions': seq<Action>)
    requires IsRun(states, actions) && Shaped(Last(states)) && Last(states).flag && Last(states).balancer == Polling
    ensures IsRun(states', actions') && Shaped(Last(states')) && Events(actions') == Events(actions)
    ensures var s := Last(states); Last(states') == s.(sent := s.sent + [s.buffer], flag := false, manage := Free)
  {
    states', actions' := Take(states, actions, BalancerStep);
    states', actions' := Take(states', actions', BalancerStep);
    states', actions' := Take(states', actions', BalancerStep);
    states', actions' := Take(states', actions', BalancerStep);
  }

  /** The state once a machine has been stored and its thread has copied the record. */
  ghost function Stored(s: State, rec: Record): State
    requires Shaped(s) && rec.service < GROUPS
  {
    s.(groups := s.groups[rec.service := Append(s.groups[rec.service], rec)],
       threads := s.threads + [Running(rec)], stored := s.stored + [rec], copied := s.copied + [rec])
  }

  /** The thread of a machine just stored is started and copies its record. */
  lemma Starts(states: seq<State>, actions: seq<Action>, index: nat, rec: Record)
    returns (states': seq<State>, actions': seq<Action>)
    requires IsRun(states, actions) && Shaped(Last(states)) && Last(states).acceptor == Spawning(rec, index)
    requires At(Last(states).groups, rec, index) && rec.service < GROUPS
    ensures IsRun(states', actions') && Shaped(Last(states')) && Events(actions') == Events(actions)
    ensures
      var s := Last(states);
      Last(states') == s.(mutex := Free, acceptor := Accepting, threads := s.threads + [Running(rec)],
                          copied := s.copied + [rec])
  {
    var s := Last(states);
    var n := |s.threads|;
    states', actions' := Take(states, actions, AcceptorStep);
    states', actions' := Take(states', actions', ThreadStep(n, Features));
    assert (s.threads + [Starting(index, rec)])[n := Running(rec)] == s.threads + [Running(rec)];
  }

  /** A machine connects, and the accepting thread stores its record. */
  lemma Stores(states: seq<State>, actions: seq<Action>, rec: Record)
    returns (states': seq<State>, actions': seq<Action>)
    requires IsRun(states, actions) && Shaped(Last(states)) && Quiet(Last(states)) && rec.service < GROUPS
    ensures IsRun(states', actions') && Shaped(Last(states')) && Events(actions') == Events(actions)
    ensures
      var s := Last(states);
      var g := s.groups[rec.service];
      && Last(states') == s.(mutex := ByAcceptor, groups := s.groups[rec.service := Append(g, rec)],
           stored := s.stored + [rec],
           acceptor := if rec.state == Active then WantBuffer(rec, g.current) else Spawning(rec, g.current))
      && At(Last(states').groups, rec, g.current)
  {
    states', actions' := Take(states, actions, Connect(rec));
    states', actions' := Take(states', actions', AcceptorStep);
    states', actions' := Take(states', actions', AcceptorStep);
    var g := Last(states).groups[rec.service];
    assert Append(g, rec).slots[..g.current + 1][g.current] == rec;
  }

  lemma ConnectStandby(states: seq<State>, actions: seq<Action>, rec: Record)
    returns (states': seq<State>, actions': seq<Action>)
    requires IsRun(states, actions) && Quiet(Last(states)) && rec.service < GROUPS && rec.state != Active
    ensures IsRun(states', actions') && Quiet(Last(states')) && Events(actions') == Events(actions)
    ensures Last(states') == Stored(Last(states), rec)
  {
    states', actions' := Stores(states, actions, rec);
    states', actions' := Starts(states', actions', Last(states).groups[rec.service].current, rec);
  }

  /** The accepting thread fills the message buffer with the machine to add. */
  lemma FillsAddition(states: seq<State>, actions: seq<Action>, rec: Record, index: nat)
    returns (states': seq<State>, actions': seq<Action>)
    requires IsRun(states, actions) && Shaped(Last(states)) && Last(states).acceptor == Announcing(rec, index, 0)
    ensures IsRun(states', actions') && Shaped(Last(states')) && Events(actions') == Events(actions)
    ensures Last(states') == Last(states).(acceptor := Announcing(rec, index, 4), buffer := AddMessage(rec))
  {
    FilledIn(Last(states).buffer, AddMessage(rec));
    states', actions' := Take(states, actions, AcceptorStep);
    states', actions' := Take(states', actions', AcceptorStep);
    states', actions' := Take(states', actions', AcceptorStep);
    states', actions' := Take(states', actions', AcceptorStep);
  }

  /** The accepting thread announces the record it has stored. */
  lemma Announces(states: seq<State>, actions: seq<Action>, rec: Record, index: nat)
    returns (states': seq<State>, actions': seq<Action>)
    requires IsRun(states, actions) && Shaped(Last(states)) && Last(states).acceptor == WantBuffer(rec, index)
    requires Last(states).manage == Free && Last(states).balancer == Polling
    ensures IsRun(states', actions') && Shaped(Last(states')) && Events(actions') == Events(actions)
    ensures
      var s, m := Last(states), AddMessage(rec);
      Last(states') == s.(acceptor := Spawning(rec, index), buffer := m, announced := s.announced + [m],
                          sent := s.sent + [m], flag := false)
  {
    states', actions' := Take(states, actions, AcceptorStep);
    states', actions' := FillsAddition(states', actions', rec, index);
    states', actions' := Take(states', actions', AcceptorStep);
    states', actions' := Sends(states', actions');
  }

  lemma ConnectActive(states: seq<State>, actions: seq<Action>, rec: Record)
    returns (states': seq<State>, actions': seq<Action>)
    requires IsRun(states, actions) && Quiet(Last(states)) && rec.service < GROUPS && rec.state == Active
    ensures IsRun(states', actions') && Quiet(Last(states')) && Events(actions') == Events(actions)
    ensures
      var s, m := Last(states), AddMessage(rec);
      Last(states') == Stored(s, rec).(buffer := m, announced := s.announced + [m], sent := s.sent + [m])
  {
    var index := Last(states).groups[rec.service].current;
    states', actions' := Stores(states, actions, rec);
    states', actions' := Announces(states', actions', rec, index);
    states', actions' := Starts(states', actions', index, rec);
  }

  /** A thread fills the message buffer with its report. */
  lemma FillsReport(states: seq<State>, actions: seq<Action>, t: nat, vm: Record, op: Operation)
    returns (states': seq<State>, actions': seq<Action>)
    requires IsRun(states, actions) && Shaped(Last(states)) && t < |Last(states).threads|
    requires Last(states).threads[t] == Reporting(vm, op, 0)
    ensures IsRun(states', actions') && Shaped(Last(states')) && Events(actions') == Events(actions)
    ensures
      var s := Last(states);
      Last(states') == s.(threads := s.threads[t := Reporting(vm, op, 4)], buffer := ReportMessage(vm, op))
  {
    FilledIn(Last(states).buffer, ReportMessage(vm, op));
    var step := ThreadStep(t, Features);
    states', actions' := Take(states, actions, step);
    states', actions' := Take(states', actions', step);
    states', actions' := Take(states', actions', step);
    states', actions' := Take(states', actions', step);
    assert Last(states').threads == Last(states).threads[t := Reporting(vm, op, 4)];
  }

  /** A thread reports its machine for rejuvenation. */
  lemma Reports(states: seq<State>, actions: seq<Action>, t: nat, vm: Record)
    returns (states': seq<State>, actions': seq<Action>)
    requires IsRun(states, actions) && Quiet(Last(states)) && t < |Last(states).threads|
    requires Last(states).threads[t] == WantReport(vm, Rej)
    ensures IsRun(states', actions') && Quiet(Last(states')) && Events(actions') == Events(actions)
    ensures
      var s, m := Last(states), ReportMessage(vm, Rej);
      Last(states') == s.(threads := s.threads[t := Running(vm)], buffer := m, announced := s.announced + [m],
                          sent := s.sent + [m])
  {
    var step := ThreadStep(t, Features);
    states', actions' := Take(states, actions, step);
    states', actions' := FillsReport(states', actions', t, vm, Rej);
    states', actions' := Take(states', actions', step);
    states', actions' := Sends(states', actions');
    assert Last(states').threads == Last(states).threads[t := Running(vm)];
  }

  /** A machine is near its crash: a machine standing by is promoted. */
  lemma Promotes(states: seq<State>, actions: seq<Action>, t: nat, vm: Record)
    returns (states': seq<State>, actions': seq<Action>)
    requires IsRun(states, actions) && Quiet(Last(states)) && t < |Last(states).threads| && vm.service < GROUPS
    requires Last(states).threads[t] == Running(vm) && vm.state == Active
    ensures IsRun(states', actions') && Quiet(Last(states'))
    ensures Events(actions') == Events(actions) + [ThreadStep(t, NearCrash)]
    ensures
      var s := Last(states);
      Last(states') == s.(groups := s.groups[vm.service := Promote(s.groups[vm.service])],
                          threads := s.threads[t := WantReport(vm, Rej)])
  {
    states', actions' := Take(states, actions, ThreadStep(t, NearCrash));
    states', actions' := Take(states', actions', ThreadStep(t, Features));
    states', actions' := Take(states', actions', ThreadStep(t, Features));
  }

  /** The first promotion of any group: b stands by, a serves and comes near its crash, which is the
      only thing that any thread is told. The table
      then calls b active; the thread of b still has the record standing by; and the balancer, told
      to add a and to take it away, is left with no machine. */
  lemma PromotionRun(a: Record, b: Record) returns (states: seq<State>, actions: seq<Action>)
    requires a.state == Active && b.state == StandBy && a.service == b.service < GROUPS
    ensures IsRun(states, actions) && Quiet(Last(states)) && Events(actions) == [ThreadStep(1, NearCrash)]
    ensures
      var s := Last(states);
      && s.groups[b.service].slots[..s.groups[b.service].current] == [b.(state := Active), a]
      && s.threads == [Running(b), Running(a)]
      && s.sent == [AddMessage(a), ReportMessage(a, Rej)]
      && LoadBalancer.Fold(multiset{}, ReceivedAll(s.sent), a.service) == multiset{}
  {
    var g: Group;
    states, actions, g := BothConnect(a, b);
    states, actions := Promotes(states, actions, 1, a);
    PromoteFirst(g, a, b);
    states, actions := Reports(states, actions, 1, a);
    AddThenReject(a);
  }

  /** b connects standing by, and then a to serve. */
  lemma BothConnect(a: Record, b: Record) returns (states: seq<State>, actions: seq<Action>, g: Group)
    requires a.state == Active && b.state == StandBy && a.service == b.service < GROUPS
    ensures IsRun(states, actions) && Quiet(Last(states)) && Events(actions) == []
    ensures Last(states).groups[a.service] == g && g.current == 2 <= |g.slots| && g.slots[..2] == [b, a]
    ensures Last(states).threads == [Running(b), Running(a)] && Last(states).sent == [AddMessage(a)]
  {
    states, actions := [Initial()], [];
    states, actions := ConnectStandby(states, actions, b);
    var g1 := Append(Group(seq(INITIAL, i => EMPTY), 0), b);
    assert Last(states).groups[b.service] == g1;
    states, actions := ConnectActive(states, actions, a);
    g := Append(g1, a);
  }

  lemma PromoteFirst(g: Group, a: Record, b: Record)
    requires g.current == 2 <= |g.slots| && g.slots[..2] == [b, a] && b.state == StandBy
    ensures Promote(g).slots[..Promote(g).current] == [b.(state := Active), a]
  {
    assert FindStandBy(g.slots[..2]) == 0;
  }

  lemma AddThenReject(a: Record)
    ensures LoadBalancer.Fold(multiset{}, ReceivedAll([AddMessage(a), ReportMessage(a, Rej)]), a.service)
         == multiset{}
  {
    var ms := ReceivedAll([AddMessage(a), ReportMessage(a, Rej)]);
    assert ms[..1] == [Received(AddMessage(a))] && ms[..1][..0] == [];
    assert LoadBalancer.Fold(multiset{}, ms[..1], a.service) == multiset{LoadBalancer.Endpoint(a.ip, LB_PORT)};
  }
}
