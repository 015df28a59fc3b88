/** What the communication threads of the controller make of the events on their sockets: a machine
    near its crash is reported for rejuvenation and another promoted, and a machine that disconnects
    is reported as gone, once.
 */
module ThreadEvents {
  import opened ControllerServer
  import Promotions

  // ----- events and announcements in a run

  /** In step i thread t, serving an active copy, is told of e. */
  ghost predicate Told(states: seq<State>, actions: seq<Action>, t: nat, e: Event, i: nat)
    requires i < |actions| < |states|
  {
    && actions[i] == ThreadStep(t, e) && t < |states[i].threads|
    && states[i].threads[t].Running? && states[i].threads[t].vm.state == Active
  }

  ghost predicate Grown(before: seq<Message>, after: seq<Message>, op: Operation) {
    |after| == |before| + 1 && after[|before|].op == op
  }

  /** In step i thread t announces a message of this kind. */
  ghost predicate Announces(states: seq<State>, actions: seq<Action>, t: nat, op: Operation, i: nat)
    requires i < |actions| < |states|
  {
    actions[i].ThreadStep? && actions[i].t == t && Grown(states[i].announced, states[i + 1].announced, op)
  }

  ghost function TimesTold(states: seq<State>, actions: seq<Action>, t: nat, e: Event, k: nat): nat
    requires k <= |actions| < |states|
  {
    if k == 0 then 0 else TimesTold(states, actions, t, e, k - 1) + One(Told(states, actions, t, e, k - 1))
  }

  ghost function TimesAnnounced(states: seq<State>, actions: seq<Action>, t: nat, op: Operation, k: nat): nat
    requires k <= |actions| < |states|
  {
    if k == 0 then 0
    else TimesAnnounced(states, actions, t, op, k - 1) + One(Announces(states, actions, t, op, k - 1))
  }

  /** Thread t is on its way to announce that its machine is to be rejuvenated. */
  ghost predicate RejDue(s: State, t: nat) {
    t < |s.threads| &&
      match s.threads[t]
      case WantSwitch(_) => true
      case Switching(_) => true
      case WantReport(_, op) => op == Rej
      case Reporting(_, op, _) => op == Rej
      case _ => false
  }

  /** Thread t is on its way to announce that its machine is gone. */
  ghost predicate DeleteDue(s: State, t: nat) {
    t < |s.threads| &&
      match s.threads[t]
      case WantReport(_, op) => op == Delete
      case Reporting(_, op, _) => op == Delete
      case _ => false
  }

  /** Thread t serves its machine no longer. */
  ghost predicate Closing(s: State, t: nat) {
    t < |s.threads| && (DeleteDue(s, t) || s.threads[t].WantRemoval? || s.threads[t].Removing? || s.threads[t].Gone?)
  }

  ghost predicate NoAdds(s: State) {
    forall t :: 0 <= t < |s.threads| && (s.threads[t].WantReport? || s.threads[t].Reporting?) ==> s.threads[t].op != Add
  }

  // ----- one step

  /** A thread's own step, event by event. */
  lemma OwnStep(s: State, t: nat, e: Event)
    requires Shaped(s) && t < |s.threads| && ThreadEnabled(s, t) && NoAdds(s)
    ensures
      var s', told := ThreadDo(s, t, e), s.threads[t].Running? && s.threads[t].vm.state == Active;
      && One(Grown(s.announced, s'.announced, Rej)) + One(RejDue(s', t))
           == One(RejDue(s, t)) + One(told && e == NearCrash)
      && One(Grown(s.announced, s'.announced, Delete)) + One(DeleteDue(s', t))
           == One(DeleteDue(s, t)) + One(told && e == Disconnected)
      && One(Closing(s', t)) == One(Closing(s, t)) + One(told && e == Disconnected)
  {
  }

  /** A step that is not thread t's leaves it alone, or starts it. */
  lemma OtherThread(s: State, a: Action, t: nat)
    requires Shaped(s) && Enabled(s, a) && !(a.ThreadStep? && a.t == t)
    ensures t < |s.threads| ==> t < |Do(s, a).threads| && Do(s, a).threads[t] == s.threads[t]
    ensures |s.threads| <= t < |Do(s, a).threads| ==> Do(s, a).threads[t].Starting?
  {
  }

  /** So nothing becomes due for thread t, and nothing is done, by other steps. */
  lemma OtherStep(s: State, a: Action, t: nat)
    requires Shaped(s) && Enabled(s, a) && !(a.ThreadStep? && a.t == t)
    ensures RejDue(Do(s, a), t) == RejDue(s, t) && DeleteDue(Do(s, a), t) == DeleteDue(s, t)
    ensures Closing(Do(s, a), t) == Closing(s, t)
  {
    OtherThread(s, a, t);
  }

  lemma EventStep(states: seq<State>, actions: seq<Action>, t: nat, i: nat)
    requires IsRun(states, actions) && i < |actions|
    ensures One(Announces(states, actions, t, Rej, i)) + One(RejDue(states[i + 1], t))
         == One(RejDue(states[i], t)) + One(Told(states, actions, t, NearCrash, i))
    ensures One(Announces(states, actions, t, Delete, i)) + One(DeleteDue(states[i + 1], t))
         == One(DeleteDue(states[i], t)) + One(Told(states, actions, t, Disconnected, i))
    ensures One(Closing(states[i + 1], t))
         == One(Closing(states[i], t)) + One(Told(states, actions, t, Disconnected, i))
  {
    assert StepAt(states, actions, i);
    Promotions.AddedInRuns(states, actions, i);
    if actions[i].ThreadStep? && actions[i].t == t {
      OwnStep(states[i], t, actions[i].event);
    } else {
      OtherStep(states[i], actions[i], t);
    }
  }

  // ----- runs

  /** In every run a thread announces that its machine is to be rejuvenated as often as it was told,
      while serving an active copy, that the machine is near its crash, but for the report on its
      way. */
  lemma {:induction false} RejsAnnounced(states: seq<State>, actions: seq<Action>, t: nat, k: nat)
    requires IsRun(states, actions) && k <= |actions|
    ensures TimesAnnounced(states, actions, t, Rej, k) + One(RejDue(states[k], t))
         == TimesTold(states, actions, t, NearCrash, k)
  {
    if k > 0 {
      RejsAnnounced(states, actions, t, k - 1);
      EventStep(states, actions, t, k - 1);
    }
  }

  /** It announces that its machine is gone as often as it was told of a disconnection, which is once
      at most; and it stops serving its machine for that reason only. */
  lemma {:induction false} DeletesAnnounced(states: seq<State>, actions: seq<Action>, t: nat, k: nat)
    requires IsRun(states, actions) && k <= |actions|
    ensures TimesAnnounced(states, actions, t, Delete, k) + One(DeleteDue(states[k], t))
         == TimesTold(states, actions, t, Disconnected, k)
    ensures TimesTold(states, actions, t, Disconnected, k) == One(Closing(states[k], t)) <= 1
  {
    if k > 0 {
      DeletesAnnounced(states, actions, t, k - 1);
      EventStep(states, actions, t, k - 1);
    }
  }

  /** What a thread announces is about the machine it has copied. */
  lemma AnnouncesOwn(states: seq<State>, actions: seq<Action>, t: nat, op: Operation, i: nat)
    requires IsRun(states, actions) && i < |actions| && Announces(states, actions, t, op, i)
    ensures t < |states[i].threads| && states[i].threads[t].Reporting?
    ensures
      var vm := states[i].threads[t].vm;
      states[i + 1].announced == states[i].announced + [Message(vm.ip, LB_PORT, vm.service, op)]
  {
    assert StepAt(states, actions, i);
  }

  // ----- promotions

  /** Thread t is about to promote a machine, or doing so, on behalf of vm. */
  ghost predicate Promoting(s: State, t: nat, vm: Record) {
    t < |s.threads| && (s.threads[t] == WantSwitch(vm) || s.threads[t] == Switching(vm))
  }

  /** A thread that promotes has been told that its machine is near its crash, and has done nothing
      else since. */
  lemma {:induction false} PromotingTold(states: seq<State>, actions: seq<Action>, t: nat, vm: Record, k: nat)
    returns (j: nat)
    requires IsRun(states, actions) && k <= |actions| && Promoting(states[k], t, vm)
    ensures j < k && Told(states, actions, t, NearCrash, j) && states[j].threads[t].vm == vm
    ensures forall i :: j < i <= k ==> Promoting(states[i], t, vm)
  {
    assert StepAt(states, actions, k - 1);
    j := k - 1;
    if Promoting(states[j], t, vm) {
      j := PromotingTold(states, actions, t, vm, j);
    } else {
      PromotingStarts(states[j], actions[j], t, vm);
    }
  }

  lemma OwnStart(s: State, t: nat, e: Event, vm: Record)
    requires Shaped(s) && t < |s.threads| && ThreadEnabled(s, t)
    requires Promoting(ThreadDo(s, t, e), t, vm) && !Promoting(s, t, vm)
    ensures e == NearCrash && s.threads[t] == Running(vm) && vm.state == Active
  {
  }

  lemma PromotingStarts(s: State, a: Action, t: nat, vm: Record)
    requires Shaped(s) && Enabled(s, a) && Promoting(Do(s, a), t, vm) && !Promoting(s, t, vm)
    ensures a == ThreadStep(t, NearCrash) && t < |s.threads| && s.threads[t] == Running(vm) && vm.state == Active
  {
    if a.ThreadStep? && a.t == t {
      OwnStart(s, t, a.event, vm);
    } else {
      OtherThread(s, a, t);
    }
  }

  /** The records in use. */
  ghost function Used(g: Group): seq<Record>
    requires g.current <= |g.slots|
  {
    g.slots[..g.current]
  }

  lemma AppendMore(g: Group, rec: Record)
    requires g.current <= |g.slots| && |g.slots| >= 1
    ensures |Used(Append(g, rec))| == |Used(g)| + 1
  {
  }

  /** The accepting thread changes no table but by adding a record. */
  lemma AcceptorGrows(s: State, g: nat)
    requires Shaped(s) && AcceptorEnabled(s) && Shaped(AcceptorDo(s)) && g < GROUPS
    ensures Used(AcceptorDo(s).groups[g]) == Used(s.groups[g])
         || |Used(AcceptorDo(s).groups[g])| == |Used(s.groups[g])| + 1
  {
    if s.acceptor.Storing? { AppendMore(s.groups[s.acceptor.rec.service], s.acceptor.rec); }
  }

  /** A table that changes and keeps its length is changed by a thread that promotes. */
  lemma ChangedBy(s: State, a: Action, g: nat)
    requires Shaped(s) && Enabled(s, a) && Shaped(Do(s, a)) && g < GROUPS
    requires Used(Do(s, a).groups[g]) != Used(s.groups[g]) && |Used(Do(s, a).groups[g])| == |Used(s.groups[g])|
    ensures a.ThreadStep? && a.t < |s.threads| && s.threads[a.t].Switching? && s.threads[a.t].vm.service == g
  {
    if a == AcceptorStep { AcceptorGrows(s, g); }
  }

  /** The first record standing by has become active, and nothing else has changed. */
  ghost predicate FirstPromoted(used: seq<Record>, after: seq<Record>) {
    exists i :: 0 <= i < |used| && used[i].state == StandBy && after == used[i := used[i].(state := Active)] &&
      forall b :: 0 <= b < i ==> used[b].state != StandBy
  }

  /** In every run, when a table changes without gaining or losing a record, the first record standing
      by has become active, and nothing else has changed; a thread of the group did it, which was told
      before that its active machine is near its crash, and has done nothing else in between. */
  lemma PromotionCause(states: seq<State>, actions: seq<Action>, k: nat, g: nat) returns (t: nat, j: nat)
    requires IsRun(states, actions) && k < |actions| && g < GROUPS
    requires Shaped(states[k]) && Shaped(states[k + 1])
    requires Used(states[k + 1].groups[g]) != Used(states[k].groups[g])
    requires |Used(states[k + 1].groups[g])| == |Used(states[k].groups[g])|
    ensures actions[k].ThreadStep? && actions[k].t == t
    ensures j < k && Told(states, actions, t, NearCrash, j) && states[j].threads[t].vm.service == g
    ensures forall i :: j < i <= k ==> Promoting(states[i], t, states[j].threads[t].vm)
    ensures FirstPromoted(Used(states[k].groups[g]), Used(states[k + 1].groups[g]))
  {
    assert StepAt(states, actions, k);
    ChangedBy(states[k], actions[k], g);
    t := actions[k].t;
    j := PromotingTold(states, actions, t, states[k].threads[t].vm, k);
    PromotesFirst(states[k].groups[g]);
  }

  lemma PromotesFirst(g: Group)
    requires g.current <= |g.slots| && Used(Promote(g)) != Used(g)
    ensures FirstPromoted(Used(g), Used(Promote(g)))
  {
    var used := Used(g);
    var i := FindStandBy(used);
    forall b | 0 <= b < i ensures used[b].state != StandBy {
      FoundFirst(used, "", b);
    }
    assert Used(Promote(g)) == used[i := used[i].(state := Active)];
  }
}
