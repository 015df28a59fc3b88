/** The spin lock of `atomic.c`: a word exchanged with 1 to take it, tested and set to try, and
    exchanged with 0 to give it up. Each of these is one atomic step; any number of threads take
    them in any order. */
module SpinLocks {

  datatype Thread = Outside | Spinning | Inside

  datatype Action = Begin(t: nat) | Exchange(t: nat) | TryLock(t: nat) | Unlock(t: nat)

  datatype State = State(word: nat, threads: seq<Thread>)

  /** xchgl: the new value goes in and the old one comes out. */
  function Xchg(word: nat, value: nat): (r: (nat, nat)) {
    (value, word)
  }

  /** atomic_test_and_set: bit 0 is set, and the result tells whether it was clear. */
  function TestAndSet(word: nat): (r: (nat, bool)) {
    if word % 2 == 0 then (word + 1, true) else (word, false)
  }

  /** Only a thread inside unlocks: the callers see to that, not the lock. */
  predicate Enabled(s: State, a: Action) {
    a.t < |s.threads| &&
    match a
    case Begin(t) => s.threads[t] == Outside
    case Exchange(t) => s.threads[t] == Spinning
    case TryLock(t) => s.threads[t] == Outside
    case Unlock(t) => s.threads[t] == Inside
  }

  function Do(s: State, a: Action): State
    requires Enabled(s, a)
  {
    match a
    case Begin(t) => s.(threads := s.threads[t := Spinning])
    case Exchange(t) =>
      var (word, before) := Xchg(s.word, 1);
      State(word, s.threads[t := if before == 0 then Inside else Spinning])
    case TryLock(t) =>
      var (word, taken) := TestAndSet(s.word);
      State(word, s.threads[t := if taken then Inside else Outside])
    case Unlock(t) => State(Xchg(s.word, 0).0, s.threads[t := Outside])
  }

  ghost predicate Exclusive(threads: seq<Thread>) {
    forall t, u :: 0 <= t < u < |threads| ==> !(threads[t] == Inside && threads[u] == Inside)
  }

  /** The word is 1 exactly while a thread is inside, and there is never more than one. */
  ghost predicate Locked(s: State) {
    && s.word <= 1 && Exclusive(s.threads)
    && (s.word == 1 <==> exists t :: 0 <= t < |s.threads| && s.threads[t] == Inside)
  }

  ghost predicate IsRun(n: nat, states: seq<State>, actions: seq<Action>) {
    && |states| == |actions| + 1 && states[0] == State(0, seq(n, i => Outside))
    && forall i {:trigger StepAt(states, actions, i)} :: 0 <= i < |actions| ==> StepAt(states, actions, i)
  }

  ghost predicate StepAt(states: seq<State>, actions: seq<Action>, i: nat)
    requires i < |actions| && |states| == |actions| + 1
  {
    Enabled(states[i], actions[i]) && states[i + 1] == Do(states[i], actions[i])
  }

  lemma StepKeeps(s: State, a: Action)
    requires Locked(s) && Enabled(s, a)
    ensures Locked(Do(s, a))
  {
    var after := Do(s, a);
    assert after.threads == s.threads[a.t := after.threads[a.t]];
    if after.threads[a.t] == Inside {
      assert s.word == 0;
    } else if s.threads[a.t] != Inside && s.word == 1 {
      var t :| 0 <= t < |s.threads| && s.threads[t] == Inside;
      assert after.threads[t] == Inside;
    }
  }

  /** While a thread is inside, neither spinning nor trying changes anything. */
  lemma HeldExcludes(s: State, u: nat)
    requires Locked(s) && s.word == 1
    ensures Enabled(s, Exchange(u)) ==> Do(s, Exchange(u)) == s
    ensures Enabled(s, TryLock(u)) ==> Do(s, TryLock(u)) == s
  {
    if u < |s.threads| {
      assert s.threads[u := s.threads[u]] == s.threads;
    }
  }

  /** In every run at most one thread is inside, and the word tells whether one is; meanwhile
      whoever spins or tries changes nothing. */
  lemma {:induction false} MutualExclusion(n: nat, states: seq<State>, actions: seq<Action>, i: nat)
    requires IsRun(n, states, actions) && i <= |actions|
    ensures Locked(states[i])
    ensures forall u: nat :: states[i].word == 1 ==>
      && (Enabled(states[i], Exchange(u)) ==> Do(states[i], Exchange(u)) == states[i])
      && (Enabled(states[i], TryLock(u)) ==> Do(states[i], TryLock(u)) == states[i])
    decreases i
  {
    if i > 0 {
      MutualExclusion(n, states, actions, i - 1);
      assert StepAt(states, actions, i - 1);
      StepKeeps(states[i - 1], actions[i - 1]);
    }
    if states[i].word == 1 {
      forall u: nat {
        HeldExcludes(states[i], u);
      }
    }
  }
}
