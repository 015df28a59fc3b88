/** Thread identifiers (`thread.c`, `atomic.c`): each new thread takes a number from a shared
    counter by compare-and-swap, and tries again when another thread came first.

    A thread's read of the counter and its compare-and-swap are atomic steps, taken in any
    order. The counter is unbounded.
 */
module ThreadIds {

  datatype Thread = Reading | Swapping(seen: nat) | Done(tid: nat)

  /** The counter, the threads, and how often each thread's compare-and-swap has failed. */
  datatype State = State(counter: nat, threads: seq<Thread>, failures: seq<nat>)

  predicate Shaped(s: State) {
    |s.threads| == |s.failures|
  }

  predicate Enabled(s: State, t: nat) {
    Shaped(s) && t < |s.threads| && !s.threads[t].Done?
  }

  /** iCAS: the counter is replaced by the new value exactly when it holds the expected one. */
  function Swap(counter: nat, expected: nat, value: nat): (r: (nat, bool)) {
    if counter == expected then (value, true) else (counter, false)
  }

  /** The next step of thread t. */
  function Step(s: State, t: nat): State
    requires Enabled(s, t)
  {
    match s.threads[t]
    case Reading => s.(threads := s.threads[t := Swapping(s.counter)])
    case Swapping(v) =>
      var tid := v + 1;
      var (counter, swapped) := Swap(s.counter, v, tid);
      if swapped then s.(counter := counter, threads := s.threads[t := Done(tid)])
      else s.(threads := s.threads[t := Reading], failures := s.failures[t := s.failures[t] + 1])
  }

  function Initial(n: nat): State {
    State(0, seq(n, i => Reading), seq(n, i => 0))
  }

  ghost predicate IsRun(n: nat, states: seq<State>, schedule: seq<nat>) {
    && |states| == |schedule| + 1 && states[0] == Initial(n)
    && forall i {:trigger StepAt(states, schedule, i)} :: 0 <= i < |schedule| ==> StepAt(states, schedule, i)
  }

  ghost predicate StepAt(states: seq<State>, schedule: seq<nat>, i: nat)
    requires i < |schedule| && |states| == |schedule| + 1
  {
    Enabled(states[i], schedule[i]) && states[i + 1] == Step(states[i], schedule[i])
  }

  /** How many times a thread can have failed: each failure needs a counter value that the
      thread has since seen replaced. */
  ghost function Patience(th: Thread, counter: nat): nat {
    match th
    case Reading => counter
    case Swapping(v) => if v <= counter then v else counter
    case Done(tid) => if tid > 0 then tid - 1 else 0
  }

  /** How many of the threads are done. */
  ghost function CountDone(threads: seq<Thread>): nat {
    if threads == [] then 0 else CountDone(threads[..|threads| - 1]) + if threads[|threads| - 1].Done? then 1 else 0
  }

  /** What is known of each thread. */
  ghost predicate Known(s: State)
    requires Shaped(s)
  {
    forall t {:trigger s.threads[t]} :: 0 <= t < |s.threads| ==>
      && s.failures[t] <= Patience(s.threads[t], s.counter)
      && (s.threads[t].Swapping? ==> s.threads[t].seen <= s.counter)
      && (s.threads[t].Done? ==> 1 <= s.threads[t].tid <= s.counter)
  }

  ghost predicate DistinctTids(threads: seq<Thread>) {
    forall t, u {:trigger threads[t], threads[u]} :: 0 <= t < u < |threads| && threads[t].Done? && threads[u].Done? ==>
      threads[t].tid != threads[u].tid
  }

  ghost predicate Invariant(s: State) {
    Shaped(s) && s.counter == CountDone(s.threads) && Known(s) && DistinctTids(s.threads)
  }

  lemma StepKnown(s: State, t: nat)
    requires Enabled(s, t) && Known(s)
    ensures Known(Step(s, t))
  {
    var after := Step(s, t);
    forall u | 0 <= u < |after.threads|
      ensures after.failures[u] <= Patience(after.threads[u], after.counter)
        && (after.threads[u].Swapping? ==> after.threads[u].seen <= after.counter)
        && (after.threads[u].Done? ==> 1 <= after.threads[u].tid <= after.counter)
    {
      if u != t {
        assert after.threads[u] == s.threads[u] && after.failures[u] == s.failures[u];
      }
    }
  }

  lemma StepDistinct(s: State, t: nat)
    requires Enabled(s, t) && Known(s) && DistinctTids(s.threads)
    ensures DistinctTids(Step(s, t).threads)
  {
  }

  lemma {:induction false} CountUpdate(threads: seq<Thread>, t: nat, th: Thread)
    requires t < |threads| && !threads[t].Done?
    ensures CountDone(threads[t := th]) == CountDone(threads) + if th.Done? then 1 else 0
    decreases |threads|
  {
    var n := |threads| - 1;
    if t == n {
      assert threads[t := th][..n] == threads[..n];
    } else {
      CountUpdate(threads[..n], t, th);
      assert threads[t := th][..n] == threads[..n][t := th];
    }
  }

  lemma StepKeeps(s: State, t: nat)
    requires Invariant(s) && Enabled(s, t)
    ensures Invariant(Step(s, t))
  {
    StepKnown(s, t);
    StepDistinct(s, t);
    CountUpdate(s.threads, t, Step(s, t).threads[t]);
  }

  lemma {:induction false} NoneDone(n: nat)
    ensures CountDone(seq(n, i => Reading)) == 0
  {
    var s: seq<Thread> := seq(n, i => Reading);
    if n > 0 {
      NoneDone(n - 1);
      assert s[..n - 1] == seq(n - 1, i => Reading);
    }
  }

  lemma {:induction false} RunKeeps(n: nat, states: seq<State>, schedule: seq<nat>, i: nat)
    requires IsRun(n, states, schedule) && i <= |schedule|
    ensures Invariant(states[i]) && |states[i].threads| == n
    decreases i
  {
    if i == 0 {
      NoneDone(n);
    } else {
      RunKeeps(n, states, schedule, i - 1);
      assert StepAt(states, schedule, i - 1);
      StepKeeps(states[i - 1], schedule[i - 1]);
    }
  }

  // ----- the identifiers in use

  ghost function Tids(threads: seq<Thread>): set<nat> {
    set t | 0 <= t < |threads| && threads[t].Done? :: threads[t].tid
  }

  lemma TidsLast(threads: seq<Thread>)
    requires threads != [] && DistinctTids(threads)
    ensures
      var before, last := Tids(threads[..|threads| - 1]), threads[|threads| - 1];
      if last.Done? then last.tid !in before && Tids(threads) == before + {last.tid} else Tids(threads) == before
  {
    var n := |threads| - 1;
    assert forall t :: 0 <= t < n ==> threads[..n][t] == threads[t];
    forall k | k in Tids(threads) ensures k in Tids(threads[..n]) || (threads[n].Done? && k == threads[n].tid) {
      var t :| 0 <= t < |threads| && threads[t].Done? && threads[t].tid == k;
      if t < n {
        assert threads[..n][t].tid == k;
      }
    }
  }

  lemma {:induction false} TidsCount(threads: seq<Thread>)
    requires DistinctTids(threads)
    ensures |Tids(threads)| == CountDone(threads)
    decreases |threads|
  {
    if threads != [] {
      var n := |threads| - 1;
      assert forall t :: 0 <= t < n ==> threads[..n][t] == threads[t];
      TidsCount(threads[..n]);
      TidsLast(threads);
    }
  }

  /** The numbers from 1 to n. */
  function UpTo(n: nat): (s: set<nat>)
    ensures |s| == n && forall k :: k in s <==> 1 <= k <= n
  {
    if n == 0 then {} else UpTo(n - 1) + {n}
  }

  lemma SubsetFull(a: set<nat>, b: set<nat>)
    requires a <= b && |a| == |b|
    ensures a == b
  {
    if x :| x in b && x !in a {
      assert a <= b - {x};
      SubsetSize(a, b - {x});
    }
  }

  lemma {:induction false} SubsetSize(a: set<nat>, b: set<nat>)
    requires a <= b
    ensures |a| <= |b|
    decreases |a|
  {
    if x :| x in a {
      SubsetSize(a - {x}, b - {x});
    }
  }

  /** In every run the identifiers given out are distinct and are exactly 1 to the counter. */
  lemma TidsExact(n: nat, states: seq<State>, schedule: seq<nat>, i: nat)
    requires IsRun(n, states, schedule) && i <= |schedule|
    ensures Tids(states[i].threads) == UpTo(states[i].counter)
    ensures forall t, u ::
      (0 <= t < u < |states[i].threads| && states[i].threads[t].Done? && states[i].threads[u].Done?) ==>
        states[i].threads[t].tid != states[i].threads[u].tid
    ensures states[i].counter == CountDone(states[i].threads) <= n
  {
    RunKeeps(n, states, schedule, i);
    var s := states[i];
    TidsCount(s.threads);
    SubsetFull(Tids(s.threads), UpTo(s.counter));
    DoneBound(s.threads);
  }

  lemma {:induction false} DoneBound(threads: seq<Thread>)
    ensures CountDone(threads) <= |threads|
    ensures (exists t :: 0 <= t < |threads| && !threads[t].Done?) ==> CountDone(threads) < |threads|
    decreases |threads|
  {
    if threads != [] {
      DoneBound(threads[..|threads| - 1]);
    }
  }

  // ----- how much is wasted

  /** 0 + 1 + ... + (n - 1) */
  ghost function Triangle(n: nat): nat {
    if n == 0 then 0 else Triangle(n - 1) + (n - 1)
  }

  lemma {:induction false} TriangleIs(n: nat)
    ensures 2 * Triangle(n) == n * (n - 1)
  {
    if n > 0 {
      TriangleIs(n - 1);
      assert n * (n - 1) == (n - 1) * (n - 2) + 2 * (n - 1);
    }
  }

  /** The failures of the first n threads: of those that are done, or of those that are not. */
  ghost function Failures(s: State, n: nat, done: bool): nat
    requires Shaped(s) && n <= |s.threads|
  {
    if n == 0 then 0 else
      Failures(s, n - 1, done) + if s.threads[n - 1].Done? == done then s.failures[n - 1] else 0
  }

  ghost function TotalFailures(s: State): nat
    requires Shaped(s)
  {
    Failures(s, |s.threads|, true) + Failures(s, |s.threads|, false)
  }

  lemma {:induction false} FailuresUpdate(s: State, s': State, t: nat, n: nat)
    requires Enabled(s, t) && s' == Step(s, t) && n <= |s.threads|
    ensures |s'.threads| == |s.threads|
    ensures Failures(s', n, true) == Failures(s, n, true) + if t < n && s'.threads[t].Done? then s.failures[t] else 0
    decreases n
  {
    if n > 0 {
      FailuresUpdate(s, s', t, n - 1);
    }
  }

  /** The threads that are done have failed no more than 0 + 1 + ... times between them. */
  lemma {:induction false} DoneFailures(n: nat, states: seq<State>, schedule: seq<nat>, i: nat)
    requires IsRun(n, states, schedule) && i <= |schedule|
    ensures Shaped(states[i]) && Failures(states[i], |states[i].threads|, true) <= Triangle(states[i].counter)
    decreases i
  {
    if i == 0 {
      NoFailures(states[0], n);
    } else {
      DoneFailures(n, states, schedule, i - 1);
      RunKeeps(n, states, schedule, i - 1);
      assert StepAt(states, schedule, i - 1);
      FailuresUpdate(states[i - 1], states[i], schedule[i - 1], |states[i].threads|);
    }
  }

  lemma {:induction false} NoFailures(s: State, k: nat)
    requires Shaped(s) && k <= |s.threads| && forall t :: 0 <= t < |s.threads| ==> s.threads[t] == Reading
    ensures Failures(s, k, true) == 0
    decreases k
  {
    if k > 0 {
      NoFailures(s, k - 1);
    }
  }

  ghost function CountPending(threads: seq<Thread>, n: nat): nat
    requires n <= |threads|
  {
    if n == 0 then 0 else CountPending(threads, n - 1) + if threads[n - 1].Done? then 0 else 1
  }

  lemma {:induction false} PendingFailures(s: State, n: nat)
    requires Invariant(s) && n <= |s.threads|
    ensures Failures(s, n, false) <= CountPending(s.threads, n) * s.counter
    decreases n
  {
    if n > 0 {
      PendingFailures(s, n - 1);
      assert s.failures[n - 1] <= Patience(s.threads[n - 1], s.counter);
      OneMore(CountPending(s.threads, n - 1), s.counter);
    }
  }

  lemma OneMore(k: nat, c: nat)
    ensures (k + 1) * c == k * c + c
  {}

  lemma {:induction false} PendingCount(threads: seq<Thread>, n: nat)
    requires n <= |threads|
    ensures CountPending(threads, n) + CountDone(threads[..n]) == n
    decreases n
  {
    if n > 0 {
      PendingCount(threads, n - 1);
      assert threads[..n][..n - 1] == threads[..n - 1];
    }
  }

  lemma {:induction false} TriangleCovers(d: nat, n: nat)
    requires d <= n
    ensures Triangle(d) + (n - d) * d <= Triangle(n)
    decreases n
  {
    if d < n {
      TriangleCovers(d, n - 1);
      OneMore(n - 1 - d, d);
    }
  }

  /** However n threads are scheduled, their compare-and-swaps fail at most n(n - 1) / 2 times
      in all, so that every thread gets its identifier. */
  lemma FailureBound(n: nat, states: seq<State>, schedule: seq<nat>, i: nat)
    requires IsRun(n, states, schedule) && i <= |schedule|
    ensures Shaped(states[i]) && 2 * TotalFailures(states[i]) <= n * (n - 1)
  {
    var s := states[i];
    RunKeeps(n, states, schedule, i);
    DoneFailures(n, states, schedule, i);
    PendingFailures(s, n);
    PendingCount(s.threads, n);
    assert s.threads[..n] == s.threads;
    TriangleCovers(s.counter, n);
    TriangleIs(n);
  }

  // ----- termination

  /** Steps a run has left at most: each thread reads and swaps once for each failure, and once
      more. */
  ghost function StepsTaken(s: State, n: nat): nat
    requires Shaped(s) && n <= |s.threads|
  {
    if n == 0 then 0 else
      StepsTaken(s, n - 1) + 2 * s.failures[n - 1]
      + match s.threads[n - 1] case Reading => 0 case Swapping(_) => 1 case Done(_) => 2
  }

  lemma {:induction false} StepCounted(s: State, t: nat, n: nat)
    requires Enabled(s, t) && n <= |s.threads|
    ensures StepsTaken(Step(s, t), n) == StepsTaken(s, n) + if t < n then 1 else 0
    decreases n
  {
    if n > 0 {
      StepCounted(s, t, n - 1);
    }
  }

  lemma {:induction false} StepsBound(s: State, n: nat)
    requires Shaped(s) && n <= |s.threads|
    ensures StepsTaken(s, n) <= 2 * (Failures(s, n, true) + Failures(s, n, false)) + 2 * n
    decreases n
  {
    if n > 0 {
      StepsBound(s, n - 1);
    }
  }

  lemma {:induction false} StepsAre(n: nat, states: seq<State>, schedule: seq<nat>, i: nat)
    requires IsRun(n, states, schedule) && i <= |schedule|
    ensures Shaped(states[i]) && |states[i].threads| == n && StepsTaken(states[i], n) == i
    decreases i
  {
    RunKeeps(n, states, schedule, i);
    if i == 0 {
      NoSteps(states[0], n);
    } else {
      StepsAre(n, states, schedule, i - 1);
      assert StepAt(states, schedule, i - 1);
      StepCounted(states[i - 1], schedule[i - 1], n);
    }
  }

  lemma {:induction false} NoSteps(s: State, k: nat)
    requires Shaped(s) && k <= |s.threads|
    requires forall t :: 0 <= t < |s.threads| ==> s.threads[t] == Reading && s.failures[t] == 0
    ensures StepsTaken(s, k) == 0
    decreases k
  {
    if k > 0 {
      NoSteps(s, k - 1);
    }
  }

  /** Every run of n threads ends within n(n + 1) steps, and when it can go no further the
      identifiers given out are exactly 1 to n. */
  lemma RunsEnd(n: nat, states: seq<State>, schedule: seq<nat>)
    requires IsRun(n, states, schedule)
    ensures |schedule| <= n * (n - 1) + 2 * n
    ensures (forall t :: !Enabled(states[|schedule|], t)) ==> Tids(states[|schedule|].threads) == UpTo(n)
  {
    var i := |schedule|;
    var s := states[i];
    RunKeeps(n, states, schedule, i);
    StepsAre(n, states, schedule, i);
    StepsBound(s, n);
    FailureBound(n, states, schedule, i);
    TidsExact(n, states, schedule, i);
    if forall t :: !Enabled(s, t) {
      forall t | 0 <= t < n ensures s.threads[t].Done? {
        assert !Enabled(s, t);
      }
      AllDone(s.threads);
    }
  }

  lemma {:induction false} AllDone(threads: seq<Thread>)
    requires forall t :: 0 <= t < |threads| ==> threads[t].Done?
    ensures CountDone(threads) == |threads|
    decreases |threads|
  {
    if threads != [] {
      AllDone(threads[..|threads| - 1]);
    }
  }
}
