/** `repmatC`: tiling an array of any number of dimensions by recursive doubling of memory
    blocks.

    The destination is a buffer of cells that start out blank; copying requires its source to
    be filled, so a verified copy never reads what has not been written.
 */
module Tiling {

  datatype Cell<T> = Blank | Filled(value: T)

  ghost predicate AllFilled<T>(s: seq<Cell<T>>) {
    forall i :: 0 <= i < |s| ==> s[i].Filled?
  }

  /** `after` is `before` with s written at position `at` and nothing else changed. */
  ghost predicate Written<T>(before: seq<T>, after: seq<T>, at: nat, s: seq<T>) {
    && |after| == |before|
    && at + |s| <= |before|
    && after[..at] == before[..at]
    && after[at..at + |s|] == s
    && after[at + |s|..] == before[at + |s|..]
  }

  /** Writing a longer stretch over the end of a stretch just written. */
  lemma WrittenTwice<T>(x: seq<T>, y: seq<T>, z: seq<T>, at: nat, kept: seq<T>, lost: seq<T>, s: seq<T>)
    requires Written(x, y, at, kept + lost) && Written(y, z, at + |kept|, s) && |lost| <= |s|
    ensures Written(x, z, at, kept + s)
  {
    var mid, end := at + |kept|, at + |kept| + |s|;
    assert z[..at] == z[..mid][..at] == y[..mid][..at] == y[..at];
    assert z[at..end] == z[..mid][at..] + z[mid..end];
    assert z[..mid][at..] == y[..mid][at..] == y[at..mid];
    assert y[at..mid] == y[at..at + |kept + lost|][..|kept|] == kept;
    var over := |s| - |lost|;
    assert y[end..] == y[at + |kept + lost|..][over..];
    assert x[end..] == x[at + |kept + lost|..][over..];
  }

  /** The stretch b stands in the buffer at position `at`. */
  ghost predicate Holds<T>(buffer: seq<T>, at: nat, b: seq<T>) {
    at + |b| <= |buffer| && buffer[at..at + |b|] == b
  }

  /** memcpy within the buffer, of the n cells b: the regions must not overlap and the source
      must be filled. */
  method Copy<T>(a: array<Cell<T>>, to: nat, from: nat, n: nat, ghost b: seq<Cell<T>>)
    requires Holds(a[..], from, b) && |b| == n && to + n <= a.Length
    requires from + n <= to || to + n <= from
    requires AllFilled(b)
    modifies a
    ensures Written(old(a[..]), a[..], to, b)
  {
    assert forall i :: 0 <= i < n ==> a[from + i] == a[..][from..from + n][i] == b[i];
    forall i | to <= i < to + n {
      a[i] := a[from + (i - to)];
    }
    assert a[..][to..to + n] == b;
  }

  /** memcpy from the source array. */
  method CopyIn<T>(a: array<Cell<T>>, to: nat, src: seq<Cell<T>>)
    requires to + |src| <= a.Length && AllFilled(src)
    modifies a
    ensures Written(old(a[..]), a[..], to, src)
  {
    forall i | to <= i < to + |src| {
      a[i] := src[i - to];
    }
  }

  // ----- repeating one block

  lemma {:induction false} MulStep(x: nat, n: nat)
    requires n > 0
    ensures x * n == x * (n - 1) + x
  {}

  lemma MulMono(x: nat, m: nat, n: nat)
    requires m <= n
    ensures x * m <= x * n
  {}

  /** The block repeated n times. */
  function Times<T>(b: seq<T>, n: nat): (s: seq<T>) {
    if n == 0 then [] else Times(b, n - 1) + b
  }

  lemma {:induction false} TimesLength<T>(b: seq<T>, n: nat)
    ensures |Times(b, n)| == |b| * n
    decreases n
  {
    if n > 0 {
      TimesLength(b, n - 1);
      MulStep(|b|, n);
    }
  }

  lemma TimesOnce<T>(b: seq<T>)
    ensures Times(b, 1) == b
    ensures Times(b, 2) == b + b
  {
    assert Times(b, 0) == [];
    assert Times(b, 1) == [] + b;
    assert Times(b, 2) == Times(b, 1) + b;
  }

  lemma {:induction false} TimesAdd<T>(b: seq<T>, m: nat, n: nat)
    ensures Times(b, m + n) == Times(b, m) + Times(b, n)
    decreases n
  {
    if n == 0 {
      assert Times(b, m) + [] == Times(b, m);
    } else {
      TimesAdd(b, m, n - 1);
      assert Times(b, m) + (Times(b, n - 1) + b) == Times(b, m) + Times(b, n - 1) + b;
    }
  }

  /** Repeating a repetition is repeating the block product-many times. */
  lemma {:induction false} TimesTimes<T>(b: seq<T>, m: nat, n: nat)
    ensures Times(Times(b, m), n) == Times(b, m * n)
    decreases n
  {
    if n == 0 {
      assert m * n == 0;
    } else {
      TimesTimes(b, m, n - 1);
      MulStep(m, n);
      TimesAdd(b, m * (n - 1), m);
    }
  }

  /** Every copy in a repetition is the block. */
  lemma {:induction false} TimesAt<T>(b: seq<T>, n: nat, q: nat, i: nat)
    requires q < n && i < |b|
    ensures |b| * q + i < |Times(b, n)|
    ensures Times(b, n)[|b| * q + i] == b[i]
    decreases n
  {
    TimesLength(b, n - 1);
    if q < n - 1 {
      TimesAt(b, n - 1, q, i);
    }
  }

  lemma {:induction false} TimesFilled<T>(b: seq<Cell<T>>, n: nat)
    requires AllFilled(b)
    ensures AllFilled(Times(b, n))
    decreases n
  {
    if n > 0 {
      TimesFilled(b, n - 1);
    }
  }

  lemma {:induction false} TimesGrows<T>(b: seq<T>, m: nat, n: nat)
    requires m <= n
    ensures |Times(b, m)| <= |Times(b, n)|
    decreases n
  {
    if m < n {
      TimesGrows(b, m, n - 1);
    }
  }

  lemma NextCopy<T>(start: seq<T>, before: seq<T>, after: seq<T>, dest: nat, p: nat, b: seq<T>, n: nat)
    requires p == dest + |Times(b, n)| && n >= 1
    requires Written(start, before, dest, Times(b, n)) && Written(before, after, p, b)
    ensures Written(start, after, dest, Times(b, n + 1))
  {
    assert Times(b, n) + [] == Times(b, n);
    WrittenTwice(start, before, after, dest, Times(b, n), [], b);
  }

  lemma HoldsBelow<T>(before: seq<T>, after: seq<T>, dest: nat, p: nat, b: seq<T>, s: seq<T>)
    requires Holds(before, dest, b) && Written(before, after, p, s) && dest + |b| <= p
    ensures Holds(after, dest, b)
  {
    assert after[dest..dest + |b|] == after[..p][dest..dest + |b|] == before[..p][dest..dest + |b|];
  }

  /** The slow form: copy the block rep - 1 times. */
  method RepeatNaive<T>(a: array<Cell<T>>, dest: nat, chunk: nat, rep: nat, ghost b: seq<Cell<T>>)
    requires rep >= 1 && dest + |Times(b, rep)| <= a.Length
    requires Holds(a[..], dest, b) && |b| == chunk && AllFilled(b)
    modifies a
    ensures Written(old(a[..]), a[..], dest, Times(b, rep))
  {
    ghost var start := a[..];
    var p := dest;
    TimesOnce(b);
    for i := 1 to rep
      invariant p + chunk == dest + |Times(b, i)|
      invariant Written(start, a[..], dest, Times(b, i)) && Holds(a[..], dest, b)
    {
      p := p + chunk;
      TimesGrows(b, i + 1, rep);
      TimesGrows(b, 1, i);
      ghost var before := a[..];
      Copy(a, p, dest, chunk, b);
      NextCopy(start, before, a[..], dest, p, b, i);
      HoldsBelow(before, a[..], dest, p, b, b);
    }
  }

  // ----- the fast form

  ghost function Log2(n: nat): nat {
    if n < 2 then 0 else 1 + Log2(n / 2)
  }

  lemma TimesDouble<T>(b: seq<T>, h: nat)
    ensures Times(b + b, h) == Times(b, 2 * h)
  {
    TimesOnce(b);
    TimesTimes(b, 2, h);
  }

  lemma TimesOdd<T>(b: seq<T>, h: nat)
    ensures b + Times(b + b, h) == Times(b, 1 + 2 * h)
  {
    TimesOnce(b);
    TimesDouble(b, h);
    TimesAdd(b, 1, 2 * h);
  }

  lemma DoubledLength<T>(b: seq<T>, rep: nat)
    requires rep >= 2
    ensures |Times(b, rep)| >= |b| + |b| + if rep % 2 == 1 then |b| else 0
  {
    var least := if rep % 2 == 1 then 3 else 2;
    TimesLength(b, least);
    TimesGrows(b, least, rep);
    MulMono(|b|, 2, least);
  }

  /** A repetition is its double-width repetition half as often, after one odd block. */
  lemma Doubling<T>(b: seq<T>, rep: nat)
    requires rep >= 2
    ensures rep % 2 == 0 ==> Times(b, rep) == Times(b + b, rep / 2)
    ensures rep % 2 == 1 ==> Times(b, rep) == b + Times(b + b, rep / 2)
    ensures |Times(b, rep)| >= |b| + |b| + if rep % 2 == 1 then |b| else 0
  {
    var h := rep / 2;
    DoubledLength(b, rep);
    if rep % 2 == 1 {
      TimesOdd(b, h);
    } else {
      TimesDouble(b, h);
    }
  }

  lemma SecondBlock<T>(start: seq<T>, after: seq<T>, dest: nat, to: nat, b: seq<T>)
    requires Holds(start, dest, b) && to == dest + |b| && Written(start, after, to, b)
    ensures Written(start, after, dest, b + b) && Holds(after, dest, b + b) && Holds(after, to, b)
  {
    assert b + [] == b;
    assert start[dest..to] == b;
    WrittenTwice(start, start, after, dest, b, [], b);
  }

  lemma ThirdBlock<T>(start: seq<T>, mid: seq<T>, after: seq<T>, dest: nat, to: nat, d: nat, b: seq<T>)
    requires Written(start, mid, dest, b + b) && d == dest + |b| && to == d + |b| && Written(mid, after, to, b)
    ensures Written(start, after, dest, b + (b + b)) && Holds(after, d, b + b)
  {
    assert (b + b) + [] == b + b;
    WrittenTwice(start, mid, after, dest, b + b, [], b);
    assert (b + b) + b == b + (b + b);
    assert after[d..d + |b + b|] == after[dest..dest + |b + (b + b)|][|b|..];
  }

  /** What memrep has written before it calls itself: two blocks, or three for an odd count. */
  ghost function Widened<T>(b: seq<T>, odd: bool): seq<T> {
    if odd then b + (b + b) else b + b
  }

  lemma Doubled<T>(start: seq<T>, mid: seq<T>, after: seq<T>, dest: nat, d: nat, b: seq<T>, rep: nat)
    requires rep >= 2 && d == dest + if rep % 2 == 1 then |b| else 0
    requires Written(start, mid, dest, Widened(b, rep % 2 == 1))
    requires Written(mid, after, d, Times(b + b, rep / 2))
    ensures Written(start, after, dest, Times(b, rep))
  {
    var odd := if rep % 2 == 1 then b else [];
    var rest := Times(b + b, rep / 2);
    Doubling(b, rep);
    TimesOnce(b + b);
    TimesGrows(b + b, 1, rep / 2);
    assert odd + (b + b) == Widened(b, rep % 2 == 1);
    WrittenTwice(start, mid, after, dest, odd, b + b, rest);
    assert [] + rest == rest;
  }

  lemma FilledTwice<T>(b: seq<Cell<T>>)
    requires AllFilled(b)
    ensures AllFilled(b + b)
  {}

  /** The copies memrep makes before it calls itself. */
  method Widen<T>(a: array<Cell<T>>, dest: nat, chunk: nat, odd: bool, ghost b: seq<Cell<T>>)
    returns (d: nat, ghost copies: nat)
    requires dest + chunk + chunk + (if odd then chunk else 0) <= a.Length
    requires Holds(a[..], dest, b) && |b| == chunk && AllFilled(b)
    modifies a
    ensures copies <= 2 && d == dest + if odd then chunk else 0
    ensures Written(old(a[..]), a[..], dest, Widened(b, odd)) && Holds(a[..], d, b + b)
  {
    ghost var start := a[..];
    var to := dest + chunk;
    Copy(a, to, dest, chunk, b);
    SecondBlock(start, a[..], dest, to, b);
    d, copies := dest, 1;
    if odd {
      ghost var before := a[..];
      d, to := to, to + chunk;
      Copy(a, to, d, chunk, b);
      ThirdBlock(start, before, a[..], dest, to, d, b);
      copies := 2;
    }
  }

  /** memrep: repeat the block b of length chunk by doubling, in at most two copies per halving
      of rep. */
  method Repeat<T>(a: array<Cell<T>>, dest: nat, chunk: nat, rep: nat, ghost b: seq<Cell<T>>)
    returns (ghost copies: nat)
    requires rep >= 1 && dest + |Times(b, rep)| <= a.Length
    requires Holds(a[..], dest, b) && |b| == chunk && AllFilled(b)
    modifies a
    ensures Written(old(a[..]), a[..], dest, Times(b, rep))
    ensures copies <= 2 * Log2(rep)
    decreases rep
  {
    TimesOnce(b);
    if rep == 1 {
      return 0;
    }
    ghost var start := a[..];
    Doubling(b, rep);
    var d: nat;
    d, copies := Widen(a, dest, chunk, rep % 2 == 1, b);
    ghost var mid := a[..];
    FilledTwice(b);
    ghost var more := Repeat(a, d, chunk * 2, rep / 2, b + b);
    copies := copies + more;
    Doubled(start, mid, a[..], dest, d, b, rep);
  }

  // ----- arrays of several dimensions

  /** The number of cells in the first d dimensions. */
  function Size(elt: nat, dims: seq<nat>, d: nat): (n: nat)
    requires d <= |dims|
  {
    if d == 0 then elt else Size(elt, dims, d - 1) * dims[d - 1]
  }

  function DestDims(dims: seq<nat>, reps: seq<nat>): (r: seq<nat>)
    requires |dims| == |reps|
    ensures |r| == |dims|
  {
    seq(|dims|, i requires 0 <= i < |dims| => dims[i] * reps[i])
  }

  /** The tiling of an array in its first d dimensions: the slabs along dimension d - 1, each
      tiled in the dimensions below, one after another, and all of that repeated. */
  function Tile<T>(src: seq<T>, elt: nat, dims: seq<nat>, reps: seq<nat>, d: nat): (s: seq<T>)
    requires d <= |dims| == |reps| && |src| == Size(elt, dims, d)
    ensures |s| == Size(elt, DestDims(dims, reps), d)
    decreases d, 1, 0
  {
    if d == 0 then src else
      var n := dims[d - 1];
      var slabs := Slabs(src, elt, dims, reps, d, n);
      Regroup(Size(elt, DestDims(dims, reps), d - 1), n, reps[d - 1]);
      TimesLength(slabs, reps[d - 1]);
      Times(slabs, reps[d - 1])
  }

  lemma Regroup(x: nat, m: nat, n: nat)
    ensures (x * m) * n == x * (m * n)
  {}

  /** The first k slabs along dimension d - 1, each tiled. */
  function Slabs<T>(src: seq<T>, elt: nat, dims: seq<nat>, reps: seq<nat>, d: nat, k: nat): (s: seq<T>)
    requires 0 < d <= |dims| == |reps| && k <= dims[d - 1] && |src| == Size(elt, dims, d)
    ensures |s| == Size(elt, DestDims(dims, reps), d - 1) * k
    decreases d, 0, k
  {
    if k == 0 then [] else
      MulStep(Size(elt, DestDims(dims, reps), d - 1), k);
      Slabs(src, elt, dims, reps, d, k - 1) + Tile(Slab(src, elt, dims, d, k - 1), elt, dims, reps, d - 1)
  }

  /** Slab m of the source along dimension d - 1. */
  function Slab<T>(src: seq<T>, elt: nat, dims: seq<nat>, d: nat, m: nat): (s: seq<T>)
    requires 0 < d <= |dims| && m < dims[d - 1] && |src| == Size(elt, dims, d)
    ensures |s| == Size(elt, dims, d - 1)
  {
    var size := Size(elt, dims, d - 1);
    MulStep(size, m + 1);
    MulMono(size, m + 1, dims[d - 1]);
    src[size * m..size * (m + 1)]
  }

  /** The offset of the element at coordinates c. */
  function Offset(elt: nat, dims: seq<nat>, c: seq<nat>, d: nat): (o: nat)
    requires d <= |dims| && d <= |c|
  {
    if d == 0 then 0 else Offset(elt, dims, c, d - 1) + Size(elt, dims, d - 1) * c[d - 1]
  }

  ghost predicate Within(c: seq<nat>, dims: seq<nat>, d: nat)
    requires d <= |dims| && d <= |c|
  {
    forall i :: 0 <= i < d ==> c[i] < dims[i]
  }

  /** Coordinates taken modulo the source dimensions. */
  function Folded(c: seq<nat>, dims: seq<nat>): (r: seq<nat>)
    requires |c| == |dims|
    ensures |r| == |c|
  {
    seq(|c|, i requires 0 <= i < |c| => if dims[i] == 0 then 0 else c[i] % dims[i])
  }

  lemma {:induction false} OffsetBound(elt: nat, dims: seq<nat>, c: seq<nat>, d: nat, b: nat)
    requires d <= |dims| && d <= |c| && Within(c, dims, d) && b < elt
    ensures Offset(elt, dims, c, d) + b < Size(elt, dims, d)
    decreases d
  {
    if d > 0 {
      OffsetBound(elt, dims, c, d - 1, b);
      var size := Size(elt, dims, d - 1);
      MulStep(size, c[d - 1] + 1);
      MulMono(size, c[d - 1] + 1, dims[d - 1]);
    }
  }

  lemma {:induction false} SlabsAt<T>(src: seq<T>, elt: nat, dims: seq<nat>, reps: seq<nat>, d: nat, k: nat, m: nat,
          low: nat)
    requires 0 < d <= |dims| == |reps| && m < k <= dims[d - 1] && |src| == Size(elt, dims, d)
    requires low < Size(elt, DestDims(dims, reps), d - 1)
    ensures Size(elt, DestDims(dims, reps), d - 1) * m + low < |Slabs(src, elt, dims, reps, d, k)|
    ensures Slabs(src, elt, dims, reps, d, k)[Size(elt, DestDims(dims, reps), d - 1) * m + low]
         == Tile(Slab(src, elt, dims, d, m), elt, dims, reps, d - 1)[low]
    decreases k
  {
    MulStep(Size(elt, DestDims(dims, reps), d - 1), k);
    if m < k - 1 {
      SlabsAt(src, elt, dims, reps, d, k - 1, m, low);
    }
  }

  /** Splitting the coordinate in dimension d - 1 into its copy and its position within it. */
  lemma SplitCoordinate(size: nat, n: nat, rep: nat, c: nat) returns (q: nat, m: nat)
    requires c < n * rep
    ensures n > 0 && m == c % n && m < n && q < rep && size * c == (size * n) * q + size * m
  {
    assert n == 0 ==> n * rep == 0;
    q, m := c / n, c % n;
    assert c == n * q + m;
    if q >= rep { MulMono(n, rep, q); assert false; }
    assert size * (n * q + m) == (size * n) * q + size * m;
  }

  /** In a repetition of n slabs, cell low of slab c is cell low of slab c % n of the block. */
  lemma RepeatedSlab<T>(slabs: seq<T>, size: nat, n: nat, rep: nat, c: nat, low: nat)
    requires |slabs| == size * n && c < n * rep && low < size
    ensures n > 0
    ensures size * (c % n) + low < |slabs| && size * c + low < |Times(slabs, rep)|
    ensures Times(slabs, rep)[size * c + low] == slabs[size * (c % n) + low]
  {
    var q, m := SplitCoordinate(size, n, rep, c);
    MulStep(size, m + 1);
    MulMono(size, m + 1, n);
    TimesAt(slabs, rep, q, size * m + low);
  }

  /** One dimension of the tiling theorem: the cell low of slab c % n stands at offset
      size * c + low of the repeated slabs. */
  lemma TileStep<T>(src: seq<T>, elt: nat, dims: seq<nat>, reps: seq<nat>, d: nat, size: nat, c: nat, low: nat)
    requires 0 < d <= |dims| == |reps| && |src| == Size(elt, dims, d)
    requires size == Size(elt, DestDims(dims, reps), d - 1)
    requires c < dims[d - 1] * reps[d - 1] && low < size
    ensures dims[d - 1] > 0 && c % dims[d - 1] < dims[d - 1]
    ensures size * c + low < |Tile(src, elt, dims, reps, d)|
    ensures Tile(src, elt, dims, reps, d)[size * c + low]
         == Tile(Slab(src, elt, dims, d, c % dims[d - 1]), elt, dims, reps, d - 1)[low]
  {
    var n := dims[d - 1];
    RepeatedSlab(Slabs(src, elt, dims, reps, d, n), size, n, reps[d - 1], c, low);
    SlabsAt(src, elt, dims, reps, d, n, c % n, low);
  }

  lemma SlabAt<T>(src: seq<T>, elt: nat, dims: seq<nat>, d: nat, m: nat, x: nat)
    requires 0 < d <= |dims| && m < dims[d - 1] && |src| == Size(elt, dims, d) && x < Size(elt, dims, d - 1)
    ensures Size(elt, dims, d - 1) * m + x < |src|
    ensures Slab(src, elt, dims, d, m)[x] == src[Size(elt, dims, d - 1) * m + x]
  {
    var size := Size(elt, dims, d - 1);
    MulStep(size, m + 1);
    MulMono(size, m + 1, dims[d - 1]);
  }

  lemma NoneOfNothing(n: nat, rep: nat)
    ensures n == 0 ==> n * rep == 0
  {}

  lemma FoldedWithin(c: seq<nat>, dims: seq<nat>, reps: seq<nat>, d: nat)
    requires d <= |dims| == |reps| == |c| && Within(c, DestDims(dims, reps), d)
    ensures Within(Folded(c, dims), dims, d)
  {
    forall i | 0 <= i < d ensures Folded(c, dims)[i] < dims[i] {
      assert c[i] < DestDims(dims, reps)[i];
      NoneOfNothing(dims[i], reps[i]);
    }
  }

  /** The cell at c lies in the slab of its folded last coordinate, on both sides. */
  lemma TileLevel<T>(src: seq<T>, elt: nat, dims: seq<nat>, reps: seq<nat>, d: nat, c: seq<nat>, b: nat)
    requires 0 < d <= |dims| == |reps| == |c| && |src| == Size(elt, dims, d) && b < elt
    requires Within(c, DestDims(dims, reps), d) && Within(Folded(c, dims), dims, d)
    ensures
      var dest, folded := DestDims(dims, reps), Folded(c, dims);
      var slab := Slab(src, elt, dims, d, folded[d - 1]);
      var x, y := Offset(elt, dest, c, d - 1) + b, Offset(elt, dims, folded, d - 1) + b;
      && Offset(elt, dest, c, d) + b < |Tile(src, elt, dims, reps, d)| && x < |Tile(slab, elt, dims, reps, d - 1)|
      && Offset(elt, dims, folded, d) + b < |src| && y < |slab|
      && Tile(src, elt, dims, reps, d)[Offset(elt, dest, c, d) + b] == Tile(slab, elt, dims, reps, d - 1)[x]
      && slab[y] == src[Offset(elt, dims, folded, d) + b]
  {
    var dest, folded := DestDims(dims, reps), Folded(c, dims);
    OffsetBound(elt, dest, c, d - 1, b);
    OffsetBound(elt, dims, folded, d - 1, b);
    assert c[d - 1] < dest[d - 1] && folded[d - 1] == c[d - 1] % dims[d - 1];
    TileStep(src, elt, dims, reps, d, Size(elt, dest, d - 1), c[d - 1], Offset(elt, dest, c, d - 1) + b);
    SlabAt(src, elt, dims, d, folded[d - 1], Offset(elt, dims, folded, d - 1) + b);
  }

  /** The tiling theorem: the destination cell at coordinates c is the source cell at those
      coordinates modulo the source dimensions. */
  lemma {:induction false} TileAt<T>(src: seq<T>, elt: nat, dims: seq<nat>, reps: seq<nat>, d: nat, c: seq<nat>, b: nat)
    requires d <= |dims| == |reps| == |c| && |src| == Size(elt, dims, d) && b < elt
    requires Within(c, DestDims(dims, reps), d)
    ensures Offset(elt, DestDims(dims, reps), c, d) + b < |Tile(src, elt, dims, reps, d)|
    ensures Offset(elt, dims, Folded(c, dims), d) + b < |src|
    ensures Tile(src, elt, dims, reps, d)[Offset(elt, DestDims(dims, reps), c, d) + b]
         == src[Offset(elt, dims, Folded(c, dims), d) + b]
    decreases d
  {
    OffsetBound(elt, DestDims(dims, reps), c, d, b);
    FoldedWithin(c, dims, reps, d);
    OffsetBound(elt, dims, Folded(c, dims), d, b);
    if d > 0 {
      TileLevel(src, elt, dims, reps, d, c, b);
      TileAt(Slab(src, elt, dims, d, Folded(c, dims)[d - 1]), elt, dims, reps, d - 1, c, b);
    }
  }

  /** The coordinates of offset o, and with them the converse: no cell is left out. */
  ghost function Coordinates(elt: nat, dims: seq<nat>, o: nat, d: nat): (c: seq<nat>)
    requires d <= |dims| && o < Size(elt, dims, d)
    ensures |c| == d && Within(c, dims, d)
    decreases d
  {
    if d == 0 then [] else
      var size := Size(elt, dims, d - 1);
      OffsetSplits(size, dims[d - 1], o);
      Coordinates(elt, dims, o % size, d - 1) + [o / size]
  }

  lemma OffsetSplits(size: nat, n: nat, o: nat)
    requires o < size * n
    ensures size > 0 && o / size < n && o % size < size && o == size * (o / size) + o % size
  {
    assert size == 0 ==> size * n == 0;
    if o / size >= n { MulMono(size, n, o / size); assert false; }
  }

  lemma {:induction false} OffsetPrefix(elt: nat, dims: seq<nat>, c: seq<nat>, c': seq<nat>, d: nat)
    requires d <= |dims| && d <= |c| && d <= |c'| && c[..d] == c'[..d]
    ensures Offset(elt, dims, c, d) == Offset(elt, dims, c', d)
    decreases d
  {
    if d > 0 {
      assert c[..d - 1] == c[..d][..d - 1] == c'[..d - 1];
      assert c[d - 1] == c[..d][d - 1] == c'[d - 1];
      OffsetPrefix(elt, dims, c, c', d - 1);
    }
  }

  /** Every cell has coordinates. */
  lemma {:induction false} EveryCell(elt: nat, dims: seq<nat>, o: nat, d: nat) returns (b: nat)
    requires d <= |dims| && o < Size(elt, dims, d)
    ensures b < elt && Offset(elt, dims, Coordinates(elt, dims, o, d), d) + b == o
    decreases d
  {
    if d == 0 {
      b := o;
    } else {
      var size := Size(elt, dims, d - 1);
      OffsetSplits(size, dims[d - 1], o);
      b := EveryCell(elt, dims, o % size, d - 1);
      var c, c' := Coordinates(elt, dims, o, d), Coordinates(elt, dims, o % size, d - 1);
      assert c == c' + [o / size];
      OffsetPrefix(elt, dims, c, c', d - 1);
    }
  }

  // ----- the recursive procedure

  /** In the lowest dimension the slabs are single elements, and copying them one after another
      is copying the source. */
  lemma {:induction false} FlatSlabs<T>(src: seq<T>, elt: nat, dims: seq<nat>, reps: seq<nat>, k: nat)
    requires 0 < |dims| == |reps| && |src| == Size(elt, dims, 1) && k <= dims[0]
    ensures elt * k <= |src| && Slabs(src, elt, dims, reps, 1, k) == src[..elt * k]
    decreases k
  {
    assert Size(elt, dims, 0) == elt && Size(elt, DestDims(dims, reps), 0) == elt;
    MulMono(elt, k, dims[0]);
    if k == 0 {
      assert elt * k == 0;
    } else {
      FlatSlabs(src, elt, dims, reps, k - 1);
      MulStep(elt, k);
      assert Slab(src, elt, dims, 1, k - 1) == src[elt * (k - 1)..elt * k];
      assert src[..elt * (k - 1)] + src[elt * (k - 1)..elt * k] == src[..elt * k];
    }
  }

  lemma FilledConcat<T>(s: seq<Cell<T>>, t: seq<Cell<T>>)
    requires AllFilled(s) && AllFilled(t)
    ensures AllFilled(s + t)
  {}

  lemma SlabFilled<T>(src: seq<Cell<T>>, elt: nat, dims: seq<nat>, d: nat, m: nat)
    requires 0 < d <= |dims| && m < dims[d - 1] && |src| == Size(elt, dims, d) && AllFilled(src)
    ensures AllFilled(Slab(src, elt, dims, d, m))
  {
    var slab := Slab(src, elt, dims, d, m);
    forall i | 0 <= i < |slab| ensures slab[i].Filled? {
      SlabAt(src, elt, dims, d, m, i);
    }
  }

  lemma {:induction false} TileFilled<T>(src: seq<Cell<T>>, elt: nat, dims: seq<nat>, reps: seq<nat>, d: nat)
    requires d <= |dims| == |reps| && |src| == Size(elt, dims, d) && AllFilled(src)
    ensures AllFilled(Tile(src, elt, dims, reps, d))
    decreases d, 1, 0
  {
    if d > 0 {
      SlabsFilled(src, elt, dims, reps, d, dims[d - 1]);
      TimesFilled(Slabs(src, elt, dims, reps, d, dims[d - 1]), reps[d - 1]);
    }
  }

  lemma {:induction false} SlabsFilled<T>(src: seq<Cell<T>>, elt: nat, dims: seq<nat>, reps: seq<nat>, d: nat, k: nat)
    requires 0 < d <= |dims| == |reps| && k <= dims[d - 1] && |src| == Size(elt, dims, d) && AllFilled(src)
    ensures AllFilled(Slabs(src, elt, dims, reps, d, k))
    decreases d, 0, k
  {
    if k > 0 {
      var slab := Slab(src, elt, dims, d, k - 1);
      SlabFilled(src, elt, dims, d, k - 1);
      SlabsFilled(src, elt, dims, reps, d, k - 1);
      TileFilled(slab, elt, dims, reps, d - 1);
      FilledConcat(Slabs(src, elt, dims, reps, d, k - 1), Tile(slab, elt, dims, reps, d - 1));
    }
  }

  ghost predicate AllPositive(reps: seq<nat>, d: nat)
    requires d <= |reps|
  {
    forall i :: 0 <= i < d ==> reps[i] >= 1
  }

  /** The sizes in cells of the leading dimensions, as the caller computes them. */
  ghost predicate AreSizes(sizes: seq<nat>, elt: nat, dims: seq<nat>) {
    |sizes| <= |dims| && forall i :: 0 <= i < |sizes| ==> sizes[i] == Size(elt, dims, i + 1)
  }

  method Sizes(elt: nat, dims: seq<nat>, n: nat) returns (sizes: seq<nat>)
    requires 0 < n <= |dims|
    ensures |sizes| == n && AreSizes(sizes, elt, dims)
  {
    assert Size(elt, dims, 0) == elt;
    sizes := [elt * dims[0]];
    for i := 1 to n
      invariant |sizes| == i && AreSizes(sizes, elt, dims)
    {
      sizes := sizes + [sizes[i - 1] * dims[i]];
    }
  }

  /** Repeat the slabs written at dest. */
  method RepeatSlabs<T>(a: array<Cell<T>>, dest: nat, ghost start: seq<Cell<T>>, chunk: nat, rep: nat,
          ghost slabs: seq<Cell<T>>)
    requires rep >= 1 && |slabs| == chunk && dest + |Times(slabs, rep)| <= a.Length && AllFilled(slabs)
    requires Written(start, a[..], dest, slabs)
    modifies a
    ensures Written(start, a[..], dest, Times(slabs, rep))
  {
    TimesOnce(slabs);
    TimesGrows(slabs, 1, rep);
    ghost var mid := a[..];
    ghost var copies := Repeat(a, dest, chunk, rep, slabs);
    assert [] + slabs == slabs && [] + Times(slabs, rep) == Times(slabs, rep);
    WrittenTwice(start, mid, a[..], dest, [], slabs, Times(slabs, rep));
  }

  lemma NextSlab<T>(start: seq<T>, mid: seq<T>, after: seq<T>, dest: nat, at: nat,
                    src: seq<T>, elt: nat, dims: seq<nat>, reps: seq<nat>, d: nat, i: nat)
    requires 0 < d <= |dims| == |reps| && i < dims[d - 1] && |src| == Size(elt, dims, d)
    requires at == dest + |Slabs(src, elt, dims, reps, d, i)|
    requires Written(start, mid, dest, Slabs(src, elt, dims, reps, d, i))
    requires Written(mid, after, at, Tile(Slab(src, elt, dims, d, i), elt, dims, reps, d - 1))
    ensures Written(start, after, dest, Slabs(src, elt, dims, reps, d, i + 1))
  {
    var done, next := Slabs(src, elt, dims, reps, d, i), Tile(Slab(src, elt, dims, d, i), elt, dims, reps, d - 1);
    assert done + [] == done;
    WrittenTwice(start, mid, after, dest, done, [], next);
  }

  /** The slabs of one dimension lie within its repeated size. */
  lemma SlabFits(size: nat, i: nat, n: nat, rep: nat)
    requires i < n && rep >= 1
    ensures size * i + size <= (size * n) * rep
  {
    MulStep(size, i + 1);
    MulMono(size, i + 1, n);
    MulMono(size * n, 1, rep);
  }

  /** The loop of repmat: the slabs of the highest dimension, one after another. */
  method WriteSlabs<T>(a: array<Cell<T>>, dest: nat, src: seq<Cell<T>>, nd: nat, destSizes: seq<nat>, sizes: seq<nat>,
                       elt: nat, dims: seq<nat>, reps: seq<nat>)
    requires 1 < nd <= |destSizes| == |sizes| && |dims| == |reps|
    requires AreSizes(sizes, elt, dims) && AreSizes(destSizes, elt, DestDims(dims, reps))
    requires |src| == sizes[nd - 1] && AllFilled(src) && AllPositive(reps, nd)
    requires dest + destSizes[nd - 1] <= a.Length
    modifies a
    ensures Written(old(a[..]), a[..], dest, Slabs(src, elt, dims, reps, nd, dims[nd - 1]))
    decreases nd, 0
  {
    ghost var start := a[..];
    var n, step := dims[nd - 1], destSizes[nd - 2];
    assert step == Size(elt, DestDims(dims, reps), nd - 1);
    assert start[dest..dest] == [];
    Regroup(step, n, reps[nd - 1]);
    for i := 0 to n
      invariant Written(start, a[..], dest, Slabs(src, elt, dims, reps, nd, i))
    {
      ghost var mid := a[..];
      SlabFits(step, i, n, reps[nd - 1]);
      SlabFilled(src, elt, dims, nd, i);
      Repmat(a, dest + step * i, Slab(src, elt, dims, nd, i), nd - 1, destSizes, sizes, elt, dims, reps);
      NextSlab(start, mid, a[..], dest, dest + step * i, src, elt, dims, reps, nd, i);
    }
  }

  /** repmat: the slabs of the highest dimension, and then all of them repeated. */
  method Repmat<T>(a: array<Cell<T>>, dest: nat, src: seq<Cell<T>>, nd: nat, destSizes: seq<nat>, sizes: seq<nat>,
                   elt: nat, dims: seq<nat>, reps: seq<nat>)
    requires 0 < nd <= |destSizes| == |sizes| && |dims| == |reps|
    requires AreSizes(sizes, elt, dims) && AreSizes(destSizes, elt, DestDims(dims, reps))
    requires |src| == sizes[nd - 1] && AllFilled(src) && AllPositive(reps, nd)
    requires dest + destSizes[nd - 1] <= a.Length
    modifies a
    ensures Written(old(a[..]), a[..], dest, Tile(src, elt, dims, reps, nd))
    decreases nd, 1
  {
    ghost var start := a[..];
    var n, rep, chunk := dims[nd - 1], reps[nd - 1], sizes[0];
    ghost var slabs := Slabs(src, elt, dims, reps, nd, n);
    SlabsFilled(src, elt, dims, reps, nd, n);
    Regroup(Size(elt, DestDims(dims, reps), nd - 1), n, rep);
    TimesLength(slabs, rep);
    if nd == 1 {
      FlatSlabs(src, elt, dims, reps, n);
      assert slabs == src;
      CopyIn(a, dest, src);
    } else {
      WriteSlabs(a, dest, src, nd, destSizes, sizes, elt, dims, reps);
      chunk := destSizes[nd - 2] * n;
    }
    RepeatSlabs(a, dest, start, chunk, rep, slabs);
  }

  // ----- the sizes of the result, and repetitions beyond the source's dimensions

  function Ones(n: nat): seq<nat> {
    seq(n, i => 1)
  }

  /** The product of reps[first..end]. */
  function Product(reps: seq<nat>, first: nat, end: nat): nat
    requires first <= end <= |reps|
  {
    if end == first then 1 else Product(reps, first, end - 1) * reps[end - 1]
  }

  lemma WholeSlab<T>(src: seq<T>, elt: nat, dims: seq<nat>, d: nat)
    requires 0 < d <= |dims| && dims[d - 1] == 1 && |src| == Size(elt, dims, d - 1)
    ensures |src| == Size(elt, dims, d) && Slab(src, elt, dims, d, 0) == src
  {
    var size := Size(elt, dims, d - 1);
    assert size * 0 == 0 && size * 1 == size;
    assert src[0..size] == src;
  }

  lemma OneSlab<T>(src: seq<T>, elt: nat, dims: seq<nat>, reps: seq<nat>, d: nat)
    requires 0 < d <= |dims| == |reps| && dims[d - 1] == 1 && |src| == Size(elt, dims, d - 1)
    ensures |src| == Size(elt, dims, d)
    ensures Tile(src, elt, dims, reps, d) == Times(Tile(src, elt, dims, reps, d - 1), reps[d - 1])
  {
    WholeSlab(src, elt, dims, d);
    var below := Tile(src, elt, dims, reps, d - 1);
    assert Slabs(src, elt, dims, reps, d, 1) == Slabs(src, elt, dims, reps, d, 0) + below;
    assert [] + below == below;
  }

  /** Dimensions of extent one only multiply the number of repetitions of what lies below. */
  lemma {:induction false} TrailingOnes<T>(src: seq<T>, elt: nat, dims: seq<nat>, reps: seq<nat>, nd: nat, d: nat)
    requires nd <= d <= |dims| == |reps| && (forall i :: nd <= i < d ==> dims[i] == 1)
    requires |src| == Size(elt, dims, nd)
    ensures |src| == Size(elt, dims, d)
    ensures Tile(src, elt, dims, reps, d) == Times(Tile(src, elt, dims, reps, nd), Product(reps, nd, d))
    decreases d
  {
    if d == nd {
      TimesOnce(Tile(src, elt, dims, reps, nd));
    } else {
      TrailingOnes(src, elt, dims, reps, nd, d - 1);
      OneSlab(src, elt, dims, reps, d);
      TimesTimes(Tile(src, elt, dims, reps, nd), Product(reps, nd, d - 1), reps[d - 1]);
    }
  }

  lemma {:induction false} EmptySize(elt: nat, dims: seq<nat>, d: nat, i: nat)
    requires i < d <= |dims| && dims[i] == 0
    ensures Size(elt, dims, d) == 0
    decreases d
  {
    if i < d - 1 {
      EmptySize(elt, dims, d - 1, i);
      ZeroTimes(dims[d - 1]);
    } else {
      ZeroTimes(Size(elt, dims, d - 1));
    }
  }

  lemma EmptyResult(elt: nat, dims: seq<nat>, rep: seq<nat>)
    requires |dims| == |rep| && exists k :: 0 <= k < |rep| && rep[k] == 0
    ensures Size(elt, DestDims(dims, rep), |rep|) == 0
  {
    var i :| 0 <= i < |rep| && rep[i] == 0;
    ZeroTimes(dims[i]);
    EmptySize(elt, DestDims(dims, rep), |rep|, i);
  }

  lemma ZeroTimes(n: nat)
    ensures 0 * n == 0 && n * 0 == 0
  {}

  lemma {:induction false} PositiveProduct(reps: seq<nat>, first: nat, end: nat)
    requires first <= end <= |reps| && AllPositive(reps, |reps|)
    ensures Product(reps, first, end) >= 1
    decreases end
  {
    if first < end {
      PositiveProduct(reps, first, end - 1);
      MulMono(Product(reps, first, end - 1), 1, reps[end - 1]);
    }
  }

  /** The repetitions along each dimension of the result: the arguments, a single number given
      as a vector standing for the first two dimensions, and one for every dimension not named. */
  function Repetitions(ndim: nat, arg: seq<nat>, asVector: bool): (r: seq<nat>)
    requires ndim >= 2
    ensures |r| >= ndim
  {
    var named := if asVector && |arg| == 1 then [arg[0], arg[0]] else arg;
    if |named| < ndim then named + Ones(ndim - |named|) else named
  }

  lemma WrittenWhole<T>(start: seq<T>, after: seq<T>, s: seq<T>)
    requires Written(start, after, 0, s) && |s| == |start|
    ensures after == s
  {
    assert after == after[0..|s|];
  }

  /** The end of mexFunction: the tiling in the source's own dimensions, and all of it repeated
      along those beyond. */
  method FillOut<T>(out: array<Cell<T>>, src: seq<Cell<T>>, ndim: nat, destSizes: seq<nat>, sizes: seq<nat>,
                    elt: nat, dims: seq<nat>, rep: seq<nat>, extra: nat)
    requires 0 < ndim == |destSizes| == |sizes| && |dims| == |rep| && extra >= 1
    requires AreSizes(sizes, elt, dims) && AreSizes(destSizes, elt, DestDims(dims, rep))
    requires |src| == sizes[ndim - 1] && AllFilled(src) && AllPositive(rep, ndim)
    requires out.Length == |Times(Tile(src, elt, dims, rep, ndim), extra)| && (|dims| == ndim ==> extra == 1)
    modifies out
    ensures out[..] == Times(Tile(src, elt, dims, rep, ndim), extra)
  {
    ghost var start, tile := out[..], Tile(src, elt, dims, rep, ndim);
    TimesOnce(tile);
    TimesGrows(tile, 1, extra);
    Repmat(out, 0, src, ndim, destSizes, sizes, elt, dims, rep);
    if |dims| > ndim {
      TileFilled(src, elt, dims, rep, ndim);
      RepeatSlabs(out, 0, start, destSizes[ndim - 1], extra, tile);
    }
    WrittenWhole(start, out[..], Times(tile, extra));
  }

  /** The forms of the argument: a lone number stands for two, and missing repetitions are ones. */
  method ReadArguments(ndim: nat, arg: seq<nat>, asVector: bool) returns (rep: seq<nat>, nrep: nat, ndimdest: nat)
    requires ndim >= 2
    ensures rep == Repetitions(ndim, arg, asVector) && |rep| == ndimdest >= ndim && nrep <= ndimdest
    ensures forall i :: nrep <= i < ndimdest ==> rep[i] == 1
  {
    nrep := |arg|;
    ndimdest := if nrep > ndim then nrep else ndim;
    rep := arg;
    if asVector && nrep == 1 {
      rep, nrep := [arg[0], arg[0]], 2;
    }
    rep := rep + Ones(ndimdest - nrep);
  }

  /** mexFunction: the result holds the tiling of the source in every dimension of the result,
      the source having extent one in the dimensions it lacks. */
  method TileArray<T>(src: seq<Cell<T>>, elt: nat, srcDims: seq<nat>, arg: seq<nat>, asVector: bool)
    returns (out: array<Cell<T>>, dims: seq<nat>, rep: seq<nat>)
    requires |srcDims| >= 2 && |src| == Size(elt, srcDims, |srcDims|) && AllFilled(src)
    ensures fresh(out)
    ensures rep == Repetitions(|srcDims|, arg, asVector) && dims == srcDims + Ones(|rep| - |srcDims|)
    ensures |src| == Size(elt, dims, |dims|)
    ensures out[..] == Tile(src, elt, dims, rep, |dims|)
  {
    var ndim, ndimdest, nrep := |srcDims|, 0, 0;
    rep, nrep, ndimdest := ReadArguments(ndim, arg, asVector);
    dims := srcDims + Ones(ndimdest - ndim);
    SizePrefix(elt, srcDims, dims, ndim);
    TrailingOnes(src, elt, dims, rep, ndim, ndimdest);
    var destdims := DestDims(dims, rep);
    var sizes := Sizes(elt, dims, ndim);
    var destSizes := Sizes(elt, destdims, ndim);
    var extra := Extra(rep, ndim);
    TimesLength(Tile(src, elt, dims, rep, ndim), extra);
    out := new Cell<T>[destSizes[ndim - 1] * extra](i => Blank);
    var empty := AnyZero(rep, nrep);
    if empty {
      EmptyResult(elt, dims, rep);
      assert out[..] == [];
    } else {
      PositiveProduct(rep, ndim, ndimdest);
      FillOut(out, src, ndim, destSizes, sizes, elt, dims, rep, extra);
    }
  }

  lemma {:induction false} SizePrefix(elt: nat, dims: seq<nat>, dims': seq<nat>, d: nat)
    requires d <= |dims| && d <= |dims'| && (forall i :: 0 <= i < d ==> dims[i] == dims'[i])
    ensures Size(elt, dims, d) == Size(elt, dims', d)
    decreases d
  {
    if d > 0 {
      SizePrefix(elt, dims, dims', d - 1);
    }
  }

  method AnyZero(rep: seq<nat>, n: nat) returns (empty: bool)
    requires n <= |rep|
    ensures empty <==> exists k :: 0 <= k < n && rep[k] == 0
  {
    empty := false;
    for i := 0 to n
      invariant empty <==> exists k :: 0 <= k < i && rep[k] == 0
    {
      if rep[i] == 0 { empty := true; }
    }
  }

  method Extra(rep: seq<nat>, ndim: nat) returns (extra: nat)
    requires ndim <= |rep|
    ensures extra == Product(rep, ndim, |rep|)
  {
    extra := 1;
    for i := ndim to |rep|
      invariant extra == Product(rep, ndim, i)
    {
      extra := extra * rep[i];
    }
  }
}
