/**
 * The index arithmetic shared by both carousels: the `next` and `prev`
 * updaters, and what any sequence of them does to the current index.
 */
module Slides {

  /** A request to the sequencer: `next`, `prev`, or no index change. */
  datatype Move = Forward | Backward | Stay

  /** The `next` updater `i => (i + 1) % count`: wraps from the last slide to the first. */
  function Next(i: nat, count: nat): (r: nat)
    requires i < count
    ensures r < count
    ensures r == if i + 1 == count then 0 else i + 1
  {
    (i + 1) % count
  }

  /** The `prev` updater `i => (i - 1 + count) % count`: wraps from the first slide to the last.
      The dividend is never negative, so JavaScript's `%` and Dafny's agree here. */
  function Prev(i: nat, count: nat): (r: nat)
    requires i < count
    ensures r < count
    ensures r == if i == 0 then count - 1 else i - 1
  {
    (i - 1 + count) % count
  }

  /** `prev` undoes `next`. */
  lemma PrevUndoesNext(i: nat, count: nat)
    requires i < count
    ensures Prev(Next(i, count), count) == i
  {
  }

  /** `next` undoes `prev`. */
  lemma NextUndoesPrev(i: nat, count: nat)
    requires i < count
    ensures Next(Prev(i, count), count) == i
  {
  }

  /** A move keeps the index exactly when there is a single slide; with more it always changes
      the index, and so always reschedules the auto-advance timer. */
  lemma MovesChangeIndex(i: nat, count: nat)
    requires i < count
    ensures Next(i, count) == i <==> count == 1
    ensures Prev(i, count) == i <==> count == 1
  {
  }

  function Step(m: Move, i: nat, count: nat): (r: nat)
    requires i < count
    ensures r < count
  {
    match m
    case Forward => Next(i, count)
    case Backward => Prev(i, count)
    case Stay => i
  }

  /** The index after applying `moves` in order, starting at `i`. */
  function Walk(i: nat, moves: seq<Move>, count: nat): (r: nat)
    requires i < count
    ensures r < count
    decreases |moves|
  {
    if moves == [] then i else Walk(Step(moves[0], i, count), moves[1..], count)
  }

  function Delta(m: Move): int
  {
    match m
    case Forward => 1
    case Backward => -1
    case Stay => 0
  }

  /** Number of forward moves minus number of backward moves. */
  function Net(moves: seq<Move>): int
    decreases |moves|
  {
    if moves == [] then 0 else Delta(moves[0]) + Net(moves[1..])
  }

  /** Euclidean remainder is determined by any quotient/remainder decomposition. */
  lemma ModOfDecomposition(y: int, n: int, q: int, r: int)
    requires n > 0 && 0 <= r < n && y == q * n + r
    ensures y % n == r
  {
    var q', r' := y / n, y % n;
    assert y == q' * n + r';
    if q' < q {
      MulAtLeast(q - q', n);
    } else if q' > q {
      MulAtLeast(q' - q, n);
    }
  }

  lemma MulAtLeast(d: int, n: int)
    requires d >= 1 && n > 0
    ensures d * n >= n
  {
    var e := d - 1;
    assert e * n >= 0;
    assert d * n == e * n + n;
  }

  lemma ModAddLeft(a: int, b: int, n: int)
    requires n > 0
    ensures (a % n + b) % n == (a + b) % n
  {
    var q, s, t := a / n, (a % n + b) % n, (a % n + b) / n;
    assert a == q * n + a % n;
    assert a % n + b == t * n + s;
    assert a + b == (q + t) * n + s;
    ModOfDecomposition(a + b, n, q + t, s);
  }

  /** One move displaces the index by its delta, modulo `count`. */
  lemma StepIsDelta(m: Move, i: nat, count: nat)
    requires i < count
    ensures Step(m, i, count) == (i + Delta(m)) % count
  {
    match m
    case Forward =>
    case Backward =>
      ModAddLeft(i - 1 + count, 0, count);
      var q := (i - 1 + count) / count;
      assert i - 1 + count == q * count + (i - 1 + count) % count;
      ModOfDecomposition(i - 1, count, q - 1, (i - 1 + count) % count);
    case Stay =>
      ModOfDecomposition(i, count, 0, i);
  }

  /** Any sequence of next/prev calls lands on the start shifted by its net displacement. */
  lemma {:induction false} WalkIsNetDisplacement(i: nat, moves: seq<Move>, count: nat)
    requires i < count
    ensures Walk(i, moves, count) == (i + Net(moves)) % count
    decreases |moves|
  {
    if moves == [] {
      ModOfDecomposition(i, count, 0, i);
    } else {
      var j := Step(moves[0], i, count);
      WalkIsNetDisplacement(j, moves[1..], count);
      StepIsDelta(moves[0], i, count);
      ModAddLeft(i + Delta(moves[0]), Net(moves[1..]), count);
    }
  }

  lemma {:induction false} NetOfRepeat(m: Move, k: nat)
    ensures Net(seq(k, _ => m)) == k * Delta(m)
  {
    if k > 0 {
      var s := seq(k, _ => m);
      assert s[1..] == seq(k - 1, _ => m);
      NetOfRepeat(m, k - 1);
    }
  }

  /** Cyclic closure: `count` calls of `next`, or of `prev`, return to the starting slide. */
  lemma CyclicClosure(i: nat, count: nat)
    requires i < count
    ensures Walk(i, seq(count, _ => Forward), count) == i
    ensures Walk(i, seq(count, _ => Backward), count) == i
  {
    WalkIsNetDisplacement(i, seq(count, _ => Forward), count);
    NetOfRepeat(Forward, count);
    ModOfDecomposition(i + count, count, 1, i);
    WalkIsNetDisplacement(i, seq(count, _ => Backward), count);
    NetOfRepeat(Backward, count);
    ModOfDecomposition(i - count, count, -1, i);
  }
}
