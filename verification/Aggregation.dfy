/** `aggregate.c`: the data points of a run are averaged over windows of about fifteen seconds.

    Reals stand for the floating-point features. The integer features are averaged as the C code
    does it, by an unsigned 32-bit division whose result is read back as a signed integer.
 */
module Aggregation {
  import opened LinkedLists

  const STEP := 15.0
  const COUNTS := 8
  const LOADS := 6

  predicate WellFormed(p: Point) {
    |p.counts| == COUNTS && |p.loads| == LOADS
  }

  ghost predicate AllWellFormed(pts: seq<Point>) {
    forall i :: 0 <= i < |pts| ==> WellFormed(pts[i])
  }

  function Abs(r: real): real { if r < 0.0 then -r else r }

  /** The fourteen features of a point, each of which gets a slope. */
  function Features(p: Point): (f: seq<real>)
    requires WellFormed(p)
    ensures |f| == COUNTS + LOADS
  {
    seq(COUNTS + LOADS, i requires 0 <= i < COUNTS + LOADS =>
      if i < COUNTS then p.counts[i] as real else p.loads[i - COUNTS])
  }

  const WORD := 0x1_0000_0000

  /** An int divided by an unsigned int, and the quotient stored in an int. */
  function Average(sum: int, n: nat): int
    requires n > 0
  {
    var q := (sum % WORD) / n;
    if q >= WORD / 2 then q - WORD else q
  }

  /** Division rounded towards zero. */
  function Truncated(sum: int, n: nat): int
    requires n > 0
  {
    if sum >= 0 then sum / n else -((-sum) / n)
  }

  /** The average of an integer feature over a window is the rounded mean exactly when the sum
      is not negative or the window holds one point. */
  lemma AverageExact(sum: int, n: nat)
    requires 1 <= n <= WORD / 2 && -WORD / 2 <= sum < WORD / 2
    ensures Average(sum, n) == Truncated(sum, n) <==> sum >= 0 || n == 1
  {
    if sum >= 0 {
      assert sum % WORD == sum;
      QuotientBound(sum, n);
    } else {
      assert sum % WORD == sum + WORD;
      if n == 1 {
      } else {
        LargeQuotient(sum + WORD, n);
        NegativeQuotient(-sum, n);
      }
    }
  }

  lemma QuotientBound(x: nat, n: nat)
    requires n > 0
    ensures 0 <= x / n <= x
  {
    Grows(x / n, n);
  }

  lemma Grows(q: nat, n: nat)
    requires n > 0
    ensures q * n >= q
  {}

  lemma LargeQuotient(x: nat, n: nat)
    requires 2 <= n <= WORD / 2 && WORD / 2 <= x < WORD
    ensures 1 <= x / n < WORD / 2
  {
    var q := x / n;
    assert x == q * n + x % n;
    if q == 0 { assert false; }
    assert q * n >= q * 2;
  }

  lemma NegativeQuotient(x: nat, n: nat)
    requires n > 0
    ensures x / n >= 0
  {}

  // ----- the specification of the windows

  /** The point that closes the window begun at b: the first one more than STEP away from it, or
      the last point of the run. */
  ghost function CutFrom(pts: seq<Point>, b: nat, m: nat): (e: nat)
    requires b < m < |pts|
    ensures m <= e < |pts|
    decreases |pts| - m
  {
    if Closes(pts, b, m) then m else CutFrom(pts, b, m + 1)
  }

  /** Whether the point m closes the window begun at b. */
  predicate Closes(pts: seq<Point>, b: nat, m: nat)
    requires b < |pts| && m < |pts|
  {
    Abs(pts[m].key - pts[b].key) > STEP || m == |pts| - 1
  }

  ghost function Cut(pts: seq<Point>, b: nat): (e: nat)
    requires b < |pts| - 1
    ensures b < e < |pts|
  {
    CutFrom(pts, b, b + 1)
  }

  /** Feature i summed over the points b to e - 1. */
  ghost function SumCount(pts: seq<Point>, b: nat, e: nat, i: nat): int
    requires b <= e <= |pts| && AllWellFormed(pts) && i < COUNTS
  {
    if b == e then 0 else SumCount(pts, b, e - 1, i) + pts[e - 1].counts[i]
  }

  ghost function SumLoad(pts: seq<Point>, b: nat, e: nat, i: nat): real
    requires b <= e <= |pts| && AllWellFormed(pts) && i < LOADS
  {
    if b == e then 0.0 else SumLoad(pts, b, e - 1, i) + pts[e - 1].loads[i]
  }

  /** p is the aggregate of the points b to e - 1, the window being closed by point e. */
  ghost predicate IsWindow(pts: seq<Point>, b: nat, e: nat, p: Point)
    requires b < e < |pts| && AllWellFormed(pts)
  {
    var n := e - b;
    && WellFormed(p) && |p.slopes| == COUNTS + LOADS
    && p.key == pts[|pts| - 1].key - pts[b].key
    && p.generation == (pts[e].key - pts[b].key) / n as real
    && (forall i :: 0 <= i < COUNTS + LOADS ==> p.slopes[i] == (Features(pts[e])[i] - Features(pts[b])[i]) / n as real)
    && (forall i :: 0 <= i < COUNTS ==> p.counts[i] == Average(SumCount(pts, b, e, i), n))
    && (forall i :: 0 <= i < LOADS ==> p.loads[i] == SumLoad(pts, b, e, i) / n as real)
  }

  /** Where the windows of a run begin: at its first point, and at each point that closes the
      window before. */
  ghost predicate Chain(pts: seq<Point>, bounds: seq<nat>) {
    && |bounds| > 0 && bounds[0] == 0 && |pts| > 0
    && (forall i :: 0 <= i < |bounds| ==> bounds[i] < |pts|)
    && forall i {:trigger LinkAt(pts, bounds, i)} :: 0 <= i < |bounds| - 1 ==> LinkAt(pts, bounds, i)
  }

  ghost predicate LinkAt(pts: seq<Point>, bounds: seq<nat>, i: nat)
    requires i < |bounds| - 1
  {
    bounds[i] < |pts| - 1 && bounds[i + 1] == Cut(pts, bounds[i])
  }

  /** The bounds of a whole run: the last window is closed by its last point. */
  ghost predicate AreBounds(pts: seq<Point>, bounds: seq<nat>) {
    Chain(pts, bounds) && bounds[|bounds| - 1] == |pts| - 1
  }

  /** out holds the aggregates of the windows between bounds, one after another. */
  ghost predicate AreWindows(pts: seq<Point>, bounds: seq<nat>, out: seq<Point>)
    requires AllWellFormed(pts)
  {
    && |bounds| == |out| + 1
    && forall i {:trigger WindowAt(pts, bounds, out, i)} :: 0 <= i < |out| ==> WindowAt(pts, bounds, out, i)
  }

  ghost predicate WindowAt(pts: seq<Point>, bounds: seq<nat>, out: seq<Point>, i: nat)
    requires AllWellFormed(pts) && i < |out| && |bounds| == |out| + 1
  {
    bounds[i] < bounds[i + 1] < |pts| && IsWindow(pts, bounds[i], bounds[i + 1], out[i])
  }

  // ----- the loop of aggregate()

  /** bzero */
  function Zero(): (p: Point)
    ensures WellFormed(p)
  {
    Point(0.0, 0.0, seq(COUNTS + LOADS, i => 0.0), seq(COUNTS, i => 0), seq(LOADS, i => 0.0))
  }

  /** The first point of a window sets the time to crash and the initial values of the slopes. */
  function Opened(agg: Point, tail: Point, cur: Point): (p: Point)
    requires WellFormed(cur)
  {
    agg.(key := tail.key - cur.key, generation := cur.key, slopes := Features(cur))
  }

  /** Every point of a window is added up. */
  function Added(agg: Point, cur: Point): (p: Point)
    requires WellFormed(agg) && WellFormed(cur)
    ensures WellFormed(p)
  {
    agg.(counts := seq(COUNTS, i requires 0 <= i < COUNTS => agg.counts[i] + cur.counts[i]),
         loads := seq(LOADS, i requires 0 <= i < LOADS => agg.loads[i] + cur.loads[i]))
  }

  /** The averages and slopes when the point that closes the window is reached. */
  function Closed(agg: Point, cur: Point, n: nat): (p: Point)
    requires WellFormed(agg) && WellFormed(cur) && |agg.slopes| == COUNTS + LOADS && n > 0
    ensures WellFormed(p)
  {
    Point(agg.key, (cur.key - agg.generation) / n as real,
          seq(COUNTS + LOADS,
            i requires 0 <= i < COUNTS + LOADS => (agg.slopes[i] - Features(cur)[i]) / (-1.0 * n as real)),
          seq(COUNTS, i requires 0 <= i < COUNTS => Average(agg.counts[i], n)),
          seq(LOADS, i requires 0 <= i < LOADS => agg.loads[i] / n as real))
  }

  /** What is accumulated from the points b to m - 1 of the window begun at b. */
  ghost function Total(pts: seq<Point>, b: nat, m: nat): (agg: Point)
    requires b < m <= |pts| && AllWellFormed(pts)
    ensures WellFormed(agg) && |agg.slopes| == COUNTS + LOADS
    decreases m
  {
    if m == b + 1 then Added(Opened(Zero(), pts[|pts| - 1], pts[b]), pts[b])
      else Added(Total(pts, b, m - 1), pts[m - 1])
  }

  lemma {:induction false} TotalIs(pts: seq<Point>, b: nat, m: nat)
    requires b < m <= |pts| && AllWellFormed(pts)
    ensures
      var agg := Total(pts, b, m);
      && agg.slopes == Features(pts[b])
      && agg.key == pts[|pts| - 1].key - pts[b].key && agg.generation == pts[b].key
      && (forall i :: 0 <= i < COUNTS ==> agg.counts[i] == SumCount(pts, b, m, i))
      && (forall i :: 0 <= i < LOADS ==> agg.loads[i] == SumLoad(pts, b, m, i))
    decreases m
  {
    if m == b + 1 {
      forall i | 0 <= i < COUNTS ensures SumCount(pts, b, m, i) == pts[b].counts[i] {
        assert SumCount(pts, b, b, i) == 0;
      }
      forall i | 0 <= i < LOADS ensures SumLoad(pts, b, m, i) == pts[b].loads[i] {
        assert SumLoad(pts, b, b, i) == 0.0;
      }
    } else {
      TotalIs(pts, b, m - 1);
    }
  }

  lemma NegatedQuotient(x: real, y: real, n: nat)
    requires n > 0
    ensures (x - y) / (-1.0 * n as real) == (y - x) / n as real
  {}

  lemma ClosedWindow(pts: seq<Point>, b: nat, m: nat, agg: Point)
    requires b < m < |pts| && AllWellFormed(pts) && agg == Total(pts, b, m)
    ensures IsWindow(pts, b, m, Closed(agg, pts[m], m - b))
  {
    TotalIs(pts, b, m);
    var n := m - b;
    forall i | 0 <= i < COUNTS + LOADS
      ensures Closed(agg, pts[m], n).slopes[i] == (Features(pts[m])[i] - Features(pts[b])[i]) / n as real
    {
      NegatedQuotient(Features(pts[b])[i], Features(pts[m])[i], n);
    }
  }

  datatype Outcome = Aggregated | NullHead | DivisionByZero

  /** The window begun at b has not been closed before m, and once the last window has been
      closed a new one is open that will never be. */
  ghost predicate Uncut(pts: seq<Point>, b: nat, m: nat)
    requires b < m <= |pts|
  {
    if b == |pts| - 1 then m == |pts| else m < |pts| && m <= Cut(pts, b)
  }

  /** A window is closed by no point before its cut, and by its cut. */
  lemma {:induction false} CutFound(pts: seq<Point>, b: nat, k: nat, m: nat)
    requires b < k <= m < |pts| && m <= CutFrom(pts, b, k)
    ensures Closes(pts, b, m) <==> m == CutFrom(pts, b, k)
    decreases |pts| - k
  {
    if !Closes(pts, b, k) && k < m {
      CutFound(pts, b, k + 1, m);
    }
  }

  /** Windows found so far, up to b where the one still open began. */
  ghost predicate Progress(pts: seq<Point>, bounds: seq<nat>, b: nat, out: seq<Point>)
    requires AllWellFormed(pts)
  {
    Chain(pts, bounds) && AreWindows(pts, bounds, out) && bounds[|out|] == b
  }

  lemma NextWindow(pts: seq<Point>, bounds: seq<nat>, b: nat, m: nat, out: seq<Point>, p: Point)
    requires AllWellFormed(pts) && b < m < |pts| && b < |pts| - 1 && m == Cut(pts, b)
    requires Progress(pts, bounds, b, out) && IsWindow(pts, b, m, p)
    ensures Progress(pts, bounds + [m], m, out + [p])
  {
    var bounds', out' := bounds + [m], out + [p];
    forall i | 0 <= i < |out'| ensures WindowAt(pts, bounds', out', i) && LinkAt(pts, bounds', i) {
      if i < |out| {
        assert WindowAt(pts, bounds, out, i) && LinkAt(pts, bounds, i);
      }
    }
  }

  /** The accumulators of the loop. */
  datatype Window = Window(num: nat, computeRttc: bool, initTime: real, agg: Point)

  /** The loop state before point m is looked at: the window open since point b. */
  ghost predicate Walking(pts: seq<Point>, bounds: seq<nat>, windows: seq<Point>, b: nat, m: nat, w: Window)
    requires AllWellFormed(pts)
  {
    && b < |pts| && m <= |pts| && w.initTime == pts[b].key && Progress(pts, bounds, b, windows)
    && (m == 0 ==> w.num == 0 && w.computeRttc && w.agg == Zero() && b == 0 && windows == [])
    && (m > 0 ==>
         |pts| > 1 && b < m && w.num == m - b && !w.computeRttc && w.agg == Total(pts, b, m) && Uncut(pts, b, m))
  }

  lemma Started(pts: seq<Point>)
    requires |pts| > 0 && AllWellFormed(pts)
    ensures Walking(pts, [0], [], 0, 0, Window(0, true, pts[0].key, Zero()))
  {}

  /** Once every point has been visited the windows reach the last one. */
  lemma Ended(pts: seq<Point>, bounds: seq<nat>, windows: seq<Point>, b: nat, w: Window)
    requires |pts| > 0 && AllWellFormed(pts) && Walking(pts, bounds, windows, b, |pts|, w)
    ensures |pts| > 1 && AreBounds(pts, bounds) && AreWindows(pts, bounds, windows)
  {}

  /** Whether the next point closes the window, when there is one to close. */
  lemma ClosesWhenCut(pts: seq<Point>, bounds: seq<nat>, windows: seq<Point>, b: nat, m: nat, w: Window)
    requires AllWellFormed(pts) && Walking(pts, bounds, windows, b, m, w) && m < |pts|
    ensures w.num > 0 ==> b < |pts| - 1 && m > 0 && w.num == m - b && (Closes(pts, b, m) <==> m == Cut(pts, b))
    ensures w.num == 0 ==> m == 0 && b == 0 && windows == [] && (Closes(pts, b, m) <==> |pts| == 1)
    ensures Closes(pts, b, m) <==> Abs(pts[m].key - w.initTime) > STEP || m == |pts| - 1
  {
    if w.num > 0 {
      CutFound(pts, b, b + 1, m);
    }
  }

  /** The window opened with a point. */
  function Opening(tail: Point, cur: Point): Window
    requires WellFormed(cur)
  {
    Window(1, false, cur.key, Added(Opened(Zero(), tail, cur), cur))
  }

  /** The window with one point more. */
  function Extended(w: Window, tail: Point, cur: Point): Window
    requires WellFormed(cur) && WellFormed(w.agg)
  {
    Window(w.num + 1, false, w.initTime, Added(if w.computeRttc then Opened(w.agg, tail, cur) else w.agg, cur))
  }

  /** Closing a window at point m and opening the next with that same point. */
  lemma Reopened(pts: seq<Point>, bounds: seq<nat>, windows: seq<Point>, b: nat, m: nat, w: Window)
    requires AllWellFormed(pts) && Walking(pts, bounds, windows, b, m, w)
    requires m < |pts| && w.num > 0 && Closes(pts, b, m)
    ensures WellFormed(w.agg) && |w.agg.slopes| == COUNTS + LOADS
    ensures Walking(pts, bounds + [m], windows + [Closed(w.agg, pts[m], w.num)], m, m + 1,
      Opening(pts[|pts| - 1], pts[m]))
  {
    ClosesWhenCut(pts, bounds, windows, b, m, w);
    ClosedWindow(pts, b, m, w.agg);
    NextWindow(pts, bounds, b, m, windows, Closed(w.agg, pts[m], w.num));
  }

  /** Adding point m to the open window, or opening the first one with it. */
  lemma Continued(pts: seq<Point>, bounds: seq<nat>, windows: seq<Point>, b: nat, m: nat, w: Window)
    requires AllWellFormed(pts) && Walking(pts, bounds, windows, b, m, w)
    requires m < |pts| && !Closes(pts, b, m)
    ensures WellFormed(w.agg)
    ensures Walking(pts, bounds, windows, b, m + 1, Extended(w, pts[|pts| - 1], pts[m]))
  {
    ClosesWhenCut(pts, bounds, windows, b, m, w);
  }

  /** The run is intact and shares nothing with the output. */
  ghost predicate Separate(run: List, output: List)
    reads run, run.nodes, output, output.nodes
  {
    run.Valid() && output.Valid() && run != output && forall d :: d in run.nodes ==> d !in output.nodes
  }

  /** Everything in the output was there at the start, or is new. */
  twostate predicate Grown(output: List)
    reads output
  {
    && (output.tail == old(output.tail) || (output.tail != null && fresh(output.tail)))
    && forall d :: d in output.nodes && !fresh(d) ==> d in old(output.nodes)
  }

  /** An aggregated node is appended to the output. */
  method Emit(run: List, output: List, p: Point)
    requires Separate(run, output)
    modifies output, output.Last()
    ensures Separate(run, output) && run.nodes == old(run.nodes) && Grown(output)
    ensures output.Points() == old(output.Points()) + [p]
  {
    var node := new Node(p);
    assert output.tail != null ==> output.tail in output.nodes;
    assert output.Last() !! set d | d in run.nodes;
    output.InsertRear(node);
    assert output.nodes == old(output.nodes) + [node];
  }

  lemma NextNode(run: List, m: nat)
    requires run.Valid() && m < |run.nodes|
    ensures run.nodes[m].next == if m + 1 < |run.nodes| then run.nodes[m + 1] else null
  {}

  /** The body of the loop, for the node at position m: it closes the open window when that node
      does, and then adds the node to the open window, or to a new one. */
  method Visit(run: List, output: List, ghost pts: seq<Point>, ghost base: seq<Point>, cur: Node, w: Window,
               ghost m: nat, ghost b: nat, ghost bounds: seq<nat>, ghost windows: seq<Point>)
    returns (r: Outcome, next: Node?, v: Window, ghost b': nat, ghost bounds': seq<nat>, ghost windows': seq<Point>)
    requires Separate(run, output) && pts == run.Points() && AllWellFormed(pts)
    requires m < |run.nodes| && cur == run.nodes[m] && output.Points() == base + windows
    requires Walking(pts, bounds, windows, b, m, w)
    modifies output, output.Last()
    ensures Separate(run, output) && run.nodes == old(run.nodes) && Grown(output)
    ensures r == if |pts| == 1 then DivisionByZero else Aggregated
    ensures r == Aggregated ==> Walking(pts, bounds', windows', b', m + 1, v)
    ensures r == DivisionByZero ==> windows' == []
    ensures r == Aggregated ==> next == if m + 1 < |run.nodes| then run.nodes[m + 1] else null
    ensures output.Points() == base + windows'
  {
    var Window(num, computeRttc, initTime, agg) := w;
    ghost var tail := pts[|pts| - 1];
    assert cur.point == pts[m] && run.tail.point == tail;
    r, b', bounds', windows' := Aggregated, b, bounds, windows;
    ClosesWhenCut(pts, bounds, windows, b, m, w);
    if Abs(cur.point.key - initTime) > STEP || cur == run.tail {
      if num == 0 {
        return DivisionByZero, cur, w, b, bounds, windows;
      }
      Reopened(pts, bounds, windows, b, m, w);
      agg := Closed(agg, cur.point, num);
      Emit(run, output, agg);
      assert base + windows + [agg] == base + (windows + [agg]);
      b', bounds', windows' := m, bounds + [m], windows + [agg];
      initTime, num, computeRttc := cur.point.key, 0, true;
      agg := Zero();
    } else {
      Continued(pts, bounds, windows, b, m, w);
    }
    if computeRttc {
      agg := Opened(agg, run.tail.point, cur.point);
      computeRttc := false;
    }
    v := Window(num + 1, computeRttc, initTime, Added(agg, cur.point));
    assert v == if Closes(pts, b, m) then Opening(tail, pts[m]) else Extended(w, tail, pts[m]);
    NextNode(run, m);
    next := cur.next;
  }

  /** The loop over the nodes of a run that has at least one. */
  method Walk(run: List, output: List, ghost pts: seq<Point>, head: Node)
    returns (r: Outcome, ghost bounds: seq<nat>, ghost windows: seq<Point>)
    requires Separate(run, output) && pts == run.Points() && AllWellFormed(pts)
    requires |pts| > 0 && head == run.nodes[0]
    modifies output, output.Last()
    ensures Separate(run, output) && run.nodes == old(run.nodes) && Grown(output)
    ensures r == if |pts| == 1 then DivisionByZero else Aggregated
    ensures r == Aggregated ==> AreBounds(pts, bounds) && AreWindows(pts, bounds, windows)
    ensures output.Points() == old(output.Points()) + windows && (r == DivisionByZero ==> windows == [])
  {
    ghost var base := output.Points();
    ghost var m: nat, b: nat := 0, 0;
    var cur: Node?, w := head, Window(0, true, head.point.key, Zero());
    bounds, windows, r := [0], [], Aggregated;
    Started(pts);
    while cur != null
      invariant Separate(run, output) && run.nodes == old(run.nodes) && Grown(output)
      invariant Walking(pts, bounds, windows, b, m, w)
      invariant (cur == null <==> m == |run.nodes|) && (m < |run.nodes| ==> cur == run.nodes[m])
      invariant output.Points() == base + windows && r == Aggregated
      decreases |run.nodes| - m
    {
      r, cur, w, b, bounds, windows := Visit(run, output, pts, base, cur, w, m, b, bounds, windows);
      if r == DivisionByZero {
        return;
      }
      m := m + 1;
    }
    Ended(pts, bounds, windows, b, w);
  }

  /** One run: the aggregates of its windows are appended to the output, or nothing when the run
      is too short, which the source does not survive. */
  method AggregateRun(run: List, output: List) returns (r: Outcome, ghost bounds: seq<nat>, ghost windows: seq<Point>)
    requires Separate(run, output) && AllWellFormed(run.Points())
    modifies output, output.Last()
    ensures Separate(run, output) && run.nodes == old(run.nodes) && Grown(output)
    ensures r == if |run.Points()| == 0 then NullHead else if |run.Points()| == 1 then DivisionByZero else Aggregated
    ensures r == Aggregated ==> AreBounds(run.Points(), bounds) && AreWindows(run.Points(), bounds, windows)
    ensures output.Points() == old(output.Points()) + windows && (r != Aggregated ==> windows == [])
  {
    if run.head == null {
      return NullHead, [], [];
    }
    r, bounds, windows := Walk(run, output, run.Points(), run.head);
  }

  // ----- all the runs

  function Flatten(parts: seq<seq<Point>>): seq<Point> {
    if parts == [] then [] else Flatten(parts[..|parts| - 1]) + parts[|parts| - 1]
  }

  lemma FlattenMore(base: seq<Point>, parts: seq<seq<Point>>, windows: seq<Point>)
    ensures base + Flatten(parts + [windows]) == base + Flatten(parts) + windows
  {
    assert (parts + [windows])[..|parts|] == parts;
  }

  /** What a run must have been turned into. */
  ghost predicate RunDone(pts: seq<Point>, bounds: seq<nat>, windows: seq<Point>) {
    |pts| >= 2 && AllWellFormed(pts) && AreBounds(pts, bounds) && AreWindows(pts, bounds, windows)
  }

  /** What the first |parts| runs must have been turned into. */
  ghost predicate AllDone(all: seq<seq<Point>>, bounds: seq<seq<nat>>, parts: seq<seq<Point>>) {
    && |bounds| == |parts| <= |all|
    && forall i {:trigger parts[i]} :: 0 <= i < |parts| ==> RunDone(all[i], bounds[i], parts[i])
  }

  lemma OneMoreDone(all: seq<seq<Point>>, bounds: seq<seq<nat>>, parts: seq<seq<Point>>, some: seq<nat>,
          windows: seq<Point>)
    requires AllDone(all, bounds, parts) && |parts| < |all| && RunDone(all[|parts|], some, windows)
    ensures AllDone(all, bounds + [some], parts + [windows])
  {}

  lemma LongEnough(all: seq<seq<Point>>, bounds: seq<seq<nat>>, parts: seq<seq<Point>>)
    requires AllDone(all, bounds, parts)
    ensures forall i :: 0 <= i < |parts| ==> |all[i]| >= 2
  {
    forall i | 0 <= i < |parts| ensures |all[i]| >= 2 {
      assert parts[i] == parts[i];
    }
  }

  ghost function AllPoints(runs: seq<List>): (s: seq<seq<Point>>)
    reads runs
    ensures |s| == |runs| && forall i :: 0 <= i < |runs| ==> s[i] == runs[i].Points()
  {
    seq(|runs|, i requires 0 <= i < |runs| reads runs => runs[i].Points())
  }

  /** One run among many: the others stay as they are. */
  method AggregateOne(runs: seq<List>, k: nat, output: List, ghost all: seq<seq<Point>>)
    returns (r: Outcome, ghost bounds: seq<nat>, ghost windows: seq<Point>)
    requires k < |runs| && forall i :: 0 <= i < |runs| ==> Separate(runs[i], output)
    requires all == AllPoints(runs) && AllWellFormed(all[k])
    modifies output, output.Last()
    ensures forall i :: 0 <= i < |runs| ==> Separate(runs[i], output)
    ensures AllPoints(runs) == all && Grown(output)
    ensures r == if |all[k]| == 0 then NullHead else if |all[k]| == 1 then DivisionByZero else Aggregated
    ensures r == Aggregated ==> RunDone(all[k], bounds, windows)
    ensures output.Points() == old(output.Points()) + windows && (r != Aggregated ==> windows == [])
  {
    forall i | 0 <= i < |runs| ensures forall d :: d in runs[i].nodes ==> d !in output.Last() {
      assert Separate(runs[i], output);
      assert output.tail != null ==> output.tail in output.nodes;
    }
    r, bounds, windows := AggregateRun(runs[k], output);
    forall i | 0 <= i < |runs| ensures Separate(runs[i], output) && runs[i].nodes == old(runs[i].nodes) {
      assert old(Separate(runs[i], output));
      assert runs[i].Valid();
    }
  }

  /** aggregate(): every run in turn, into one output list. The program survives exactly when
      every run holds at least two points. */
  method AggregateAll(runs: seq<List>, output: List)
    returns (r: Outcome, ghost bounds: seq<seq<nat>>, ghost parts: seq<seq<Point>>)
    requires forall i :: 0 <= i < |runs| ==> Separate(runs[i], output)
    requires forall i :: 0 <= i < |runs| ==> AllWellFormed(AllPoints(runs)[i])
    modifies output, output.Last()
    ensures AllPoints(runs) == old(AllPoints(runs))
    ensures r == Aggregated <==> forall i :: 0 <= i < |runs| ==> |AllPoints(runs)[i]| >= 2
    ensures output.Points() == old(output.Points()) + Flatten(parts) && AllDone(AllPoints(runs), bounds, parts)
    ensures r == Aggregated ==> |parts| == |runs|
    ensures r != Aggregated ==> |parts| < |runs| && |AllPoints(runs)[|parts|]| == if r == NullHead then 0 else 1
  {
    r, bounds, parts := Aggregated, [], [];
    ghost var all, base := AllPoints(runs), output.Points();
    assert base + Flatten([]) == base;
    for k := 0 to |runs|
      invariant forall i :: 0 <= i < |runs| ==> Separate(runs[i], output)
      invariant AllPoints(runs) == all && Grown(output) && r == Aggregated
      invariant output.Points() == base + Flatten(parts) && |parts| == k
      invariant AllDone(all, bounds, parts)
    {
      ghost var some, windows;
      r, some, windows := AggregateOne(runs, k, output, all);
      if r != Aggregated {
        assert base + Flatten(parts) + [] == base + Flatten(parts);
        return;
      }
      OneMoreDone(all, bounds, parts, some, windows);
      FlattenMore(base, parts, windows);
      bounds, parts := bounds + [some], parts + [windows];
    }
    LongEnough(all, bounds, parts);
  }

  // ----- what the windows of a run add up to

  /** The points of the first k windows, one window after another. */
  ghost function Members(pts: seq<Point>, bounds: seq<nat>, k: nat): seq<Point>
    requires Chain(pts, bounds) && k < |bounds|
  {
    if k == 0 then [] else
      assert LinkAt(pts, bounds, k - 1);
      Members(pts, bounds, k - 1) + pts[bounds[k - 1]..bounds[k]]
  }

  /** The windows hold every point but the last exactly once and in order. */
  lemma {:induction false} Partition(pts: seq<Point>, bounds: seq<nat>, k: nat)
    requires Chain(pts, bounds) && k < |bounds|
    ensures Members(pts, bounds, k) == pts[..bounds[k]]
    ensures AreBounds(pts, bounds) && k == |bounds| - 1 ==> Members(pts, bounds, k) == pts[..|pts| - 1]
    decreases k
  {
    if k > 0 {
      assert LinkAt(pts, bounds, k - 1);
      Partition(pts, bounds, k - 1);
      assert pts[..bounds[k - 1]] + pts[bounds[k - 1]..bounds[k]] == pts[..bounds[k]];
    }
  }

  /** The sizes of the first k windows times one of their values, added up. */
  ghost function Weighted(bounds: seq<nat>, out: seq<Point>, value: Point -> real, k: nat): real
    requires |bounds| == |out| + 1 && k <= |out|
  {
    if k == 0 then 0.0 else Weighted(bounds, out, value, k - 1) + Width(bounds, k) as real * value(out[k - 1])
  }

  ghost function Width(bounds: seq<nat>, k: nat): int
    requires 0 < k < |bounds|
  {
    bounds[k] as int - bounds[k - 1] as int
  }

  /** A slope of a point, or nothing for a point without it. */
  function SlopeOf(f: nat): Point -> real {
    (p: Point) => if f < |p.slopes| then p.slopes[f] else 0.0
  }

  function LoadOf(f: nat): Point -> real {
    (p: Point) => if f < |p.loads| then p.loads[f] else 0.0
  }

  function GenerationOf(): Point -> real {
    (p: Point) => p.generation
  }

  lemma Requotient(n: int, x: real, v: real)
    requires n > 0 && v == x / n as real
    ensures n as real * v == x
  {}

  /** Slopes weighted by window size telescope to last value minus first, for each feature. */
  lemma {:induction false} SlopesTelescope(pts: seq<Point>, bounds: seq<nat>, out: seq<Point>, f: nat, k: nat)
    requires AllWellFormed(pts) && Chain(pts, bounds) && AreWindows(pts, bounds, out)
    requires f < COUNTS + LOADS && k <= |out|
    ensures Weighted(bounds, out, SlopeOf(f), k) == Features(pts[bounds[k]])[f] - Features(pts[0])[f]
    ensures AreBounds(pts, bounds) && k == |out| ==>
      Weighted(bounds, out, SlopeOf(f), k) == Features(pts[|pts| - 1])[f] - Features(pts[0])[f]
    decreases k
  {
    if k > 0 {
      SlopesTelescope(pts, bounds, out, f, k - 1);
      assert WindowAt(pts, bounds, out, k - 1);
      Requotient(Width(bounds, k), Features(pts[bounds[k]])[f] - Features(pts[bounds[k - 1]])[f], out[k - 1].slopes[f]);
    }
  }

  /** So do the generation times. */
  lemma {:induction false} TimesTelescope(pts: seq<Point>, bounds: seq<nat>, out: seq<Point>, k: nat)
    requires AllWellFormed(pts) && Chain(pts, bounds) && AreWindows(pts, bounds, out) && k <= |out|
    ensures Weighted(bounds, out, GenerationOf(), k) == pts[bounds[k]].key - pts[0].key
    ensures AreBounds(pts, bounds) && k == |out| ==>
      Weighted(bounds, out, GenerationOf(), k) == pts[|pts| - 1].key - pts[0].key
    decreases k
  {
    if k > 0 {
      TimesTelescope(pts, bounds, out, k - 1);
      assert WindowAt(pts, bounds, out, k - 1);
      Requotient(Width(bounds, k), pts[bounds[k]].key - pts[bounds[k - 1]].key, out[k - 1].generation);
    }
  }

  /** The time to crash given for a window is all the time its run still takes: what the generation
      times of this and the later windows, weighted by window size, add up to. */
  lemma CrashTimes(pts: seq<Point>, bounds: seq<nat>, out: seq<Point>, i: nat)
    requires AllWellFormed(pts) && AreBounds(pts, bounds) && AreWindows(pts, bounds, out) && i < |out|
    ensures out[i].key
         == Weighted(bounds, out, GenerationOf(), |out|) - Weighted(bounds, out, GenerationOf(), i)
  {
    TimesTelescope(pts, bounds, out, |out|);
    TimesTelescope(pts, bounds, out, i);
    assert WindowAt(pts, bounds, out, i);
  }

  lemma {:induction false} LoadsJoin(pts: seq<Point>, b: nat, m: nat, e: nat, f: nat)
    requires b <= m <= e <= |pts| && AllWellFormed(pts) && f < LOADS
    ensures SumLoad(pts, b, e, f) == SumLoad(pts, b, m, f) + SumLoad(pts, m, e, f)
    decreases e
  {
    if e > m {
      LoadsJoin(pts, b, m, e - 1, f);
    }
  }

  /** Averaging conserves: means weighted by window size add up to the total over every point
      but the last. */
  lemma {:induction false} LoadsConserved(pts: seq<Point>, bounds: seq<nat>, out: seq<Point>, f: nat, k: nat)
    requires AllWellFormed(pts) && Chain(pts, bounds) && AreWindows(pts, bounds, out) && f < LOADS && k <= |out|
    ensures Weighted(bounds, out, LoadOf(f), k) == SumLoad(pts, 0, bounds[k], f)
    ensures AreBounds(pts, bounds) && k == |out| ==>
      Weighted(bounds, out, LoadOf(f), k) == SumLoad(pts, 0, |pts| - 1, f)
    decreases k
  {
    if k > 0 {
      LoadsConserved(pts, bounds, out, f, k - 1);
      assert WindowAt(pts, bounds, out, k - 1);
      LoadsJoin(pts, 0, bounds[k - 1], bounds[k], f);
      Requotient(Width(bounds, k), SumLoad(pts, bounds[k - 1], bounds[k], f), out[k - 1].loads[f]);
    }
  }

  /** Every member of a window lies within the step of its first, whatever the times; and every
      window but the last is closed by a point beyond the step. */
  lemma MembersWithinStep(pts: seq<Point>, bounds: seq<nat>, i: nat, m: nat)
    requires AreBounds(pts, bounds) && i < |bounds| - 1 && bounds[i] <= m < bounds[i + 1]
    ensures Abs(pts[m].key - pts[bounds[i]].key) <= STEP
    ensures bounds[i + 1] < |pts| - 1 ==> Abs(pts[bounds[i + 1]].key - pts[bounds[i]].key) > STEP
  {
    assert LinkAt(pts, bounds, i);
    var b := bounds[i];
    CutFound(pts, b, b + 1, bounds[i + 1]);
    if m > b {
      CutFound(pts, b, b + 1, m);
    }
  }

  ghost predicate Increasing(pts: seq<Point>) {
    forall i, j :: 0 <= i < j < |pts| ==> pts[i].key < pts[j].key
  }

  /** With increasing times the remaining time to crash is positive and strictly decreasing, and
      every window takes a positive time. */
  lemma TimeToCrashFalls(pts: seq<Point>, bounds: seq<nat>, out: seq<Point>, i: nat)
    requires AllWellFormed(pts) && AreBounds(pts, bounds) && AreWindows(pts, bounds, out) && Increasing(pts) &&
      i < |out|
    ensures out[i].key > 0.0 && out[i].generation > 0.0
    ensures i + 1 < |out| ==> out[i + 1].key < out[i].key
  {
    assert LinkAt(pts, bounds, i) && WindowAt(pts, bounds, out, i);
    PositiveQuotient(pts[bounds[i + 1]].key - pts[bounds[i]].key, bounds[i + 1] - bounds[i]);
    if i + 1 < |out| {
      assert WindowAt(pts, bounds, out, i + 1);
    }
  }

  /** In the output of a run an integer feature is the rounded mean of its window exactly when
      its sum there is not negative or the window holds one point. */
  lemma CountsExact(pts: seq<Point>, bounds: seq<nat>, out: seq<Point>, i: nat, f: nat)
    requires AllWellFormed(pts) && |bounds| == |out| + 1 && i < |out| && f < COUNTS
    requires WindowAt(pts, bounds, out, i) && bounds[i + 1] - bounds[i] <= WORD / 2
    requires -WORD / 2 <= SumCount(pts, bounds[i], bounds[i + 1], f) < WORD / 2
    ensures
      var sum, n := SumCount(pts, bounds[i], bounds[i + 1], f), bounds[i + 1] - bounds[i];
      out[i].counts[f] == Truncated(sum, n) <==> sum >= 0 || n == 1
  {
    AverageExact(SumCount(pts, bounds[i], bounds[i + 1], f), bounds[i + 1] - bounds[i]);
  }

  /** A run of three points, the first two a second apart and the last beyond the step, whose
      first two hold -2 for the used memory: its only window reports 2147483646. */
  lemma NegativeCounts(pts: seq<Point>, bounds: seq<nat>, out: seq<Point>)
    requires |pts| == 3 && AllWellFormed(pts) && AreBounds(pts, bounds) && AreWindows(pts, bounds, out)
    requires pts[0].key == 0.0 && pts[1].key == 1.0 && pts[2].key == 100.0
    requires pts[0].counts[1] == -2 && pts[1].counts[1] == -2
    ensures |out| == 1 && WellFormed(out[0]) && out[0].counts[1] == 2147483646
    ensures Truncated(SumCount(pts, 0, 2, 1), 2) == -2
  {
    assert |bounds| > 1;
    assert LinkAt(pts, bounds, 0);
    assert Cut(pts, 0) == CutFrom(pts, 0, 2) == 2;
    assert |bounds| > 2 ==> !LinkAt(pts, bounds, 1);
    assert WindowAt(pts, bounds, out, 0);
    assert SumCount(pts, 0, 1, 1) == SumCount(pts, 0, 0, 1) + pts[0].counts[1];
    assert SumCount(pts, 0, 2, 1) == -4;
  }

  lemma PositiveQuotient(x: real, n: int)
    requires x > 0.0 && n > 0
    ensures x / n as real > 0.0
  {}
}
