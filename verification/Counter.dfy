/**
 The shared counter: a current value and a high-water mark, each updated atomically but one after the
 other, so that other threads can run in between. Amounts are unbounded integers.
 */
module Counter {

  type Thread = nat

  function Max(a: int, b: int): (r: int) {
    if a >= b then a else b
  }

  function Min(a: int, b: int): (r: int) {
    if a <= b then a else b
  }

  /** `pending` holds, for each thread between its two steps, the value it is about to raise the mark to. */
  datatype Shared = Shared(count: int, max: int, pending: map<Thread, int>)

  datatype Step =
    | IncsFirst(thread: Thread, amount: int)
    | SetsFirst(thread: Thread, value: int)
    | RaiseMark(thread: Thread)
    | Decs(fall: int)

  predicate Enabled(s: Shared, step: Step) {
    match step
    case IncsFirst(t, _) => t !in s.pending
    case SetsFirst(t, _) => t !in s.pending
    case RaiseMark(t) => t in s.pending
    case Decs(_) => true
  }

  function Next(s: Shared, step: Step): (r: Shared)
    requires Enabled(s, step)
  {
    match step
    case IncsFirst(t, c) => s.(count := s.count + c, pending := s.pending[t := s.count + c])
    case SetsFirst(t, c) => s.(count := c, pending := s.pending[t := c])
    case RaiseMark(t) => s.(max := Max(s.max, s.pending[t]), pending := s.pending - {t})
    case Decs(c) => s.(count := s.count - c)
  }

  ghost predicate IsRun(trace: seq<Shared>, steps: seq<Step>) {
    && |trace| == |steps| + 1
    && trace[0].pending == map[]
    && forall i :: 0 <= i < |steps| ==> Enabled(trace[i], steps[i]) && trace[i + 1] == Next(trace[i], steps[i])
  }

  /** The value told by the steps alone: the last one set, or the first, with all changes since. */
  ghost function Tally(first: int, steps: seq<Step>, i: nat): (r: int)
    requires i <= |steps|
  {
    if i == 0 then first
    else
      match steps[i - 1]
      case IncsFirst(_, amount) => Tally(first, steps, i - 1) + amount
      case SetsFirst(_, value) => value
      case RaiseMark(_) => Tally(first, steps, i - 1)
      case Decs(fall) => Tally(first, steps, i - 1) - fall
  }

  /** No update is lost: under every interleaving the count is the tally of all increments, sets and decrements. */
  lemma {:induction false} CountIsTheTally(trace: seq<Shared>, steps: seq<Step>, i: nat)
    requires IsRun(trace, steps) && i < |trace|
    ensures trace[i].count == Tally(trace[0].count, steps, i)
  {
    if i > 0 {
      CountIsTheTally(trace, steps, i - 1);
    }
  }

  /** The step produces a value that the mark has to reach. */
  ghost predicate Produces(step: Step) {
    step.IncsFirst? || step.SetsFirst?
  }

  /** No lower than the initial mark and every value an increment or a set has produced so far. */
  ghost predicate Covers(first: Shared, steps: seq<Step>, i: nat, mark: int)
    requires i <= |steps|
  {
    && first.max <= mark
    && forall j :: 0 <= j < i && Produces(steps[j]) ==> Tally(first.count, steps, j + 1) <= mark
  }

  /** The initial mark or one of those values. */
  ghost predicate WasProduced(first: Shared, steps: seq<Step>, i: nat, mark: int)
    requires i <= |steps|
  {
    || mark == first.max
    || exists j :: 0 <= j < i && Produces(steps[j]) && Tally(first.count, steps, j + 1) == mark
  }

  /** The highest of the initial mark and every value an increment or a set has produced so far. */
  ghost predicate IsPeak(first: Shared, steps: seq<Step>, i: nat, mark: int)
    requires i <= |steps|
  {
    Covers(first, steps, i, mark) && WasProduced(first, steps, i, mark)
  }

  /** The count starts at or below the mark and no decrement among the first i steps raises it. */
  ghost predicate StartsLowAndFalls(trace: seq<Shared>, steps: seq<Step>, i: nat)
    requires IsRun(trace, steps) && i < |trace|
  {
    trace[0].count <= trace[0].max && forall j :: 0 <= j < i && steps[j].Decs? ==> steps[j].fall >= 0
  }

  lemma PeakNext(first: Shared, steps: seq<Step>, i: nat, mark: int, value: int, next: int)
    requires i < |steps| && IsPeak(first, steps, i, mark) && value == Tally(first.count, steps, i + 1)
    requires next == if Produces(steps[i]) && value > mark then value else mark
    ensures IsPeak(first, steps, i + 1, next)
  {
    if next == mark && mark != first.max {
      var j :| 0 <= j < i && Produces(steps[j]) && Tally(first.count, steps, j + 1) == mark;
      assert j < i + 1;
    }
  }

  /** The mark or a value still pending is the peak, and neither passes it. */
  ghost predicate Reached(s: Shared, peak: int) {
    && s.max <= peak && (forall t :: t in s.pending ==> s.pending[t] <= peak)
    && (s.max == peak || exists t :: t in s.pending && s.pending[t] == peak)
  }

  lemma ReachedNext(s: Shared, step: Step, r: Shared, peak: int, next: int)
    requires Enabled(s, step) && r == Next(s, step) && Reached(s, peak)
    requires next == if Produces(step) && r.count > peak then r.count else peak
    ensures Reached(r, next)
  {
    if s.max != peak {
      var t :| t in s.pending && s.pending[t] == peak;
      assert step != RaiseMark(t) ==> t in r.pending && r.pending[t] == peak;
    }
    if Produces(step) {
      assert step.thread in r.pending && r.pending[step.thread] == r.count;
    }
  }

  lemma {:induction false} PeakExists(trace: seq<Shared>, steps: seq<Step>, i: nat) returns (peak: int)
    requires IsRun(trace, steps) && i < |trace|
    ensures IsPeak(trace[0], steps, i, peak) && Reached(trace[i], peak)
    ensures StartsLowAndFalls(trace, steps, i) ==> trace[i].count <= peak
  {
    if i == 0 {
      peak := trace[0].max;
    } else {
      var before := PeakExists(trace, steps, i - 1);
      CountIsTheTally(trace, steps, i);
      peak := if Produces(steps[i - 1]) && trace[i].count > before then trace[i].count else before;
      PeakNext(trace[0], steps, i - 1, before, trace[i].count, peak);
      ReachedNext(trace[i - 1], steps[i - 1], trace[i], before, peak);
    }
  }

  lemma OnePeak(first: Shared, steps: seq<Step>, i: nat, a: int, b: int)
    requires i <= |steps| && IsPeak(first, steps, i, a) && IsPeak(first, steps, i, b)
    ensures a == b
  {
  }

  /**
   Under every interleaving the mark or a value about to be raised to it is the highest value that any
   increment or set has produced, and neither passes that.
   */
  lemma PeakIsReached(trace: seq<Shared>, steps: seq<Step>, i: nat, peak: int)
    requires IsRun(trace, steps) && i < |trace| && IsPeak(trace[0], steps, i, peak)
    ensures trace[i].max <= peak && forall t :: t in trace[i].pending ==> trace[i].pending[t] <= peak
    ensures trace[i].max == peak || exists t :: t in trace[i].pending && trace[i].pending[t] == peak
  {
    var reached := PeakExists(trace, steps, i);
    OnePeak(trace[0], steps, i, peak, reached);
  }

  /** Whenever no thread is between its two steps, the mark is the peak, and what only falls stays below it. */
  lemma MarkIsExactWhenQuiet(trace: seq<Shared>, steps: seq<Step>, i: nat)
    requires IsRun(trace, steps) && i < |trace| && trace[i].pending == map[]
    ensures IsPeak(trace[0], steps, i, trace[i].max)
    ensures StartsLowAndFalls(trace, steps, i) ==> trace[i].count <= trace[i].max
  {
    var peak := PeakExists(trace, steps, i);
  }

  /** Any thread that is not in the middle of an operation can start one, and undisturbed they do what they say. */
  lemma UndisturbedOperations(s: Shared, t: Thread, x: int)
    requires t !in s.pending
    ensures Enabled(s, Decs(x)) && Next(s, Decs(x)) == s.(count := s.count - x)
    ensures
      && Enabled(s, IncsFirst(t, x))
      && var u := Next(s, IncsFirst(t, x));
      && Enabled(u, RaiseMark(t))
      && Next(u, RaiseMark(t))
         == s.(count := s.count + x, max := if s.count + x > s.max then s.count + x else s.max)
    ensures
      && Enabled(s, SetsFirst(t, x))
      && var u := Next(s, SetsFirst(t, x));
      && Enabled(u, RaiseMark(t)) && Next(u, RaiseMark(t)) == s.(count := x, max := if x > s.max then x else s.max)
  {
    assert s.pending[t := s.count + x] - {t} == s.pending && s.pending[t := x] - {t} == s.pending;
  }

  // ---------------------------------------------------------------------------------------------

  datatype MergeMode = NoMerge | Sum | Average | Maximum | Minimum

  /** Count and mark after merging another counter in. */
  function Merged(mode: MergeMode, count: int, max: int, otherCount: int, otherMax: int): (r: (int, int)) {
    match mode
    case NoMerge => (count, max)
    case Sum => (count + otherCount, max + otherMax)
    case Average => (count, max)
    case Maximum => (Max(count, otherCount), Max(max, otherMax))
    case Minimum => (Min(count, otherCount), Min(max, otherMax))
  }

  /** Merging, one atomic update after the other, as a single thread does it. */
  class Atomic {
    var count: int
    var max: int
    const mode: MergeMode

    constructor (count: int, max: int, mode: MergeMode)
      ensures this.count == count && this.max == max && this.mode == mode
    {
      this.count, this.max, this.mode := count, max, mode;
    }

    method Incs(c: int)
      modifies this
      ensures count == old(count) + c && max == Max(old(max), count)
    {
      var prev := count;
      count := count + c;
      max := Max(max, prev + c);
    }

    method Sets(c: int)
      modifies this
      ensures count == c && max == Max(old(max), c)
    {
      count := c;
      max := Max(max, c);
    }

    method Decs(c: int)
      modifies this`count
      ensures count == old(count) - c
    {
      count := count - c;
    }

    /** The other counter may be this one: each update reads the other's current value. */
    method Merge(other: Atomic)
      modifies this
      ensures (count, max) == Merged(mode, old(count), old(max), old(other.count), old(other.max))
    {
      match mode {
        case NoMerge =>
        case Sum =>
          count := count + other.count;
          max := max + other.max;
        case Average =>
        case Maximum =>
          count := Max(count, other.count);
          max := Max(max, other.max);
        case Minimum =>
          count := Min(count, other.count);
          max := Min(max, other.max);
      }
    }
  }

  datatype Pair = Pair(count: int, max: int)

  /** What merging the first n of the others one after the other leaves. */
  function MergedAll(mode: MergeMode, own: Pair, others: seq<Pair>, n: nat): (r: Pair)
    requires n <= |others|
  {
    if n == 0 then own
    else
      var before, o := MergedAll(mode, own, others, n - 1), others[n - 1];
      var (count, max) := Merged(mode, before.count, before.max, o.count, o.max);
      Pair(count, max)
  }

  ghost function Counts(own: Pair, others: seq<Pair>): (r: seq<int>)
    ensures |r| == |others| + 1 && r[0] == own.count
    ensures forall i :: 0 <= i < |others| ==> r[i + 1] == others[i].count
  {
    if others == [] then [own.count]
    else Counts(own, others[..|others| - 1]) + [others[|others| - 1].count]
  }

  ghost function Marks(own: Pair, others: seq<Pair>): (r: seq<int>)
    ensures |r| == |others| + 1 && r[0] == own.max
    ensures forall i :: 0 <= i < |others| ==> r[i + 1] == others[i].max
  {
    if others == [] then [own.max] else Marks(own, others[..|others| - 1]) + [others[|others| - 1].max]
  }

  ghost function Total(s: seq<int>): (r: int) {
    if s == [] then 0 else Total(s[..|s| - 1]) + s[|s| - 1]
  }

  ghost predicate IsGreatest(x: int, s: seq<int>) {
    x in s && forall i :: 0 <= i < |s| ==> s[i] <= x
  }

  ghost predicate IsLeast(x: int, s: seq<int>) {
    x in s && forall i :: 0 <= i < |s| ==> x <= s[i]
  }

  /** The value the mode stands for. */
  ghost predicate Combines(mode: MergeMode, x: int, s: seq<int>) {
    match mode
    case Sum => x == Total(s)
    case Maximum => IsGreatest(x, s)
    case Minimum => IsLeast(x, s)
    case NoMerge => s != [] && x == s[0]
    case Average => s != [] && x == s[0]
  }

  lemma CombinesNext(mode: MergeMode, x: int, s: seq<int>, y: int, next: int)
    requires Combines(mode, x, s) && next == Merged(mode, x, 0, y, 0).0
    ensures Combines(mode, next, s + [y])
  {
    assert (s + [y])[..|s|] == s;
    assert x in s ==> x in s + [y];
    assert (s + [y])[|s|] == y;
  }

  /**
   Merging counters one after the other gives the sum, the greatest or the least of all counts and of all
   marks; the modes without a rule change nothing.
   */
  lemma {:induction false} MergesCombineAll(mode: MergeMode, own: Pair, others: seq<Pair>)
    ensures
      var r := MergedAll(mode, own, others, |others|);
      Combines(mode, r.count, Counts(own, others)) && Combines(mode, r.max, Marks(own, others))
  {
    if others == [] {
      assert Counts(own, others) == [own.count] && Marks(own, others) == [own.max];
      assert [own.count][..0] == [] && [own.max][..0] == [];
    } else {
      var init, o := others[..|others| - 1], others[|others| - 1];
      MergesCombineAll(mode, own, init);
      var before, r := MergedAll(mode, own, init, |init|), MergedAll(mode, own, others, |others|);
      MergedAllFrame(mode, own, init, others, |init|);
      assert r.max == Merged(mode, before.max, 0, o.max, 0).0;
      CombinesNext(mode, before.count, Counts(own, init), o.count, r.count);
      CombinesNext(mode, before.max, Marks(own, init), o.max, r.max);
    }
  }

  lemma {:induction false} MergedAllFrame(mode: MergeMode, own: Pair, a: seq<Pair>, b: seq<Pair>, n: nat)
    requires n <= |a| && n <= |b| && forall i :: 0 <= i < n ==> a[i] == b[i]
    ensures MergedAll(mode, own, a, n) == MergedAll(mode, own, b, n)
  {
    if n > 0 {
      MergedAllFrame(mode, own, a, b, n - 1);
    }
  }

  /** Every merge mode keeps the count at or below the mark, and all but the do-nothing modes commute. */
  lemma MergesKeepOrder(mode: MergeMode, c1: int, m1: int, c2: int, m2: int)
    requires c1 <= m1 && c2 <= m2
    ensures
      var r := Merged(mode, c1, m1, c2, m2);
      r.0 <= r.1 && (mode.Sum? || mode.Maximum? || mode.Minimum? ==> r == Merged(mode, c2, m2, c1, m1))
  {
  }
}
