/**
 Which stores a lagging snapshot label is safe for. Restoring data that is ahead of its label replays
 operations the data already holds. The law a store needs is that a repeated block of operations does
 nothing; from it follows that any reading of a log that never skips an entry, however often it goes
 back, ends in the store that one reading gives.
 */
module StoreLaw {
  import opened Basics

  function Replay<S, O>(apply: (S, O) -> S, s: S, ops: seq<O>): (r: S)
    decreases |ops|
  {
    if ops == [] then s else Replay(apply, apply(s, ops[0]), ops[1..])
  }

  lemma {:induction false} ReplayConcat<S, O>(apply: (S, O) -> S, s: S, a: seq<O>, b: seq<O>)
    ensures Replay(apply, s, a + b) == Replay(apply, Replay(apply, s, a), b)
    decreases |a|
  {
    if a == [] {
      assert a + b == b;
    } else {
      assert (a + b)[1..] == a[1..] + b;
      ReplayConcat(apply, apply(s, a[0]), a[1..], b);
    }
  }

  lemma ReplayLast<S, O>(apply: (S, O) -> S, s: S, ops: seq<O>, op: O)
    ensures Replay(apply, s, ops + [op]) == apply(Replay(apply, s, ops), op)
  {
    var x := Replay(apply, s, ops);
    ReplayConcat(apply, s, ops, [op]);
    assert Replay(apply, x, [op]) == Replay(apply, apply(x, op), []);
  }

  /** Applying a block of operations twice is applying it once. */
  ghost predicate RepeatsAreHarmless<S(!new), O(!new)>(apply: (S, O) -> S) {
    forall s: S, ops: seq<O> {:trigger Replay(apply, Replay(apply, s, ops), ops)} ::
      Replay(apply, Replay(apply, s, ops), ops) == Replay(apply, s, ops)
  }

  /** Restoring data that is `ahead` of its label and replaying from the label loses and repeats nothing. */
  ghost predicate LagIsSafe<S(!new), O(!new)>(apply: (S, O) -> S) {
    forall s: S, ahead: seq<O>, rest: seq<O> ::
      Replay(apply, Replay(apply, s, ahead), ahead + rest) == Replay(apply, s, ahead + rest)
  }

  /** One restore from a lagging label is safe for exactly the stores that do not notice a repeated block. */
  lemma LagIsSafeIff<S(!new), O(!new)>(apply: (S, O) -> S)
    ensures LagIsSafe(apply) <==> RepeatsAreHarmless(apply)
  {
    if LagIsSafe(apply) {
      forall s: S, ops: seq<O> ensures Replay(apply, Replay(apply, s, ops), ops) == Replay(apply, s, ops) {
        assert ops + [] == ops;
        assert Replay(apply, Replay(apply, s, ops), ops + []) == Replay(apply, s, ops + []);
      }
    }
    if RepeatsAreHarmless(apply) {
      forall s: S, ahead: seq<O>, rest: seq<O>
        ensures Replay(apply, Replay(apply, s, ahead), ahead + rest) == Replay(apply, s, ahead + rest)
      {
        ReplayConcat(apply, s, ahead, rest);
        ReplayConcat(apply, Replay(apply, s, ahead), ahead, rest);
      }
    }
  }

  // ---------------------------------------------------------------------------------------------
  // Blocks that do the same
  // ---------------------------------------------------------------------------------------------

  ghost predicate Same<S(!new), O>(apply: (S, O) -> S, a: seq<O>, b: seq<O>) {
    forall s: S :: Replay(apply, s, a) == Replay(apply, s, b)
  }

  lemma SameInside<S(!new), O>(apply: (S, O) -> S, p: seq<O>, a: seq<O>, b: seq<O>, q: seq<O>)
    requires Same(apply, a, b)
    ensures Same(apply, p + a + q, p + b + q)
  {
    forall s: S ensures Replay(apply, s, p + a + q) == Replay(apply, s, p + b + q) {
      ReplayConcat(apply, s, p + a, q);
      ReplayConcat(apply, s, p, a);
      ReplayConcat(apply, s, p + b, q);
      ReplayConcat(apply, s, p, b);
    }
  }

  lemma Twice<S(!new), O(!new)>(apply: (S, O) -> S, p: seq<O>, a: seq<O>, q: seq<O>)
    requires RepeatsAreHarmless(apply)
    ensures Same(apply, p + (a + a) + q, p + a + q)
  {
    forall s: S ensures Replay(apply, s, a + a) == Replay(apply, s, a) {
      ReplayConcat(apply, s, a, a);
    }
    SameInside(apply, p, a + a, a, q);
  }

  /** Repeating a part of a block between two rounds of the whole block does nothing. */
  lemma PartIsAbsorbed<S(!new), O(!new)>(apply: (S, O) -> S, p: seq<O>, y: seq<O>, q: seq<O>)
    requires RepeatsAreHarmless(apply)
    ensures Same(apply, (p + y + q) + y + (p + y + q), p + y + q)
  {
    var x := p + y + q;
    var w := x + y + x;
    var h := p + y + q + y;
    assert Same(apply, w + (y + q), w) by {
      Twice(apply, x + y + p, y + q, []);
      assert x + y + p + ((y + q) + (y + q)) + [] == w + (y + q);
      assert x + y + p + (y + q) + [] == w;
    }
    assert Same(apply, w + (y + q), h + q) by {
      Twice(apply, [], h, q);
      assert [] + (h + h) + q == w + (y + q);
      assert [] + h + q == h + q;
    }
    assert Same(apply, h + q, x) by {
      Twice(apply, p, y + q, []);
      assert p + ((y + q) + (y + q)) + [] == h + q;
      assert p + (y + q) + [] == x;
    }
  }

  ghost predicate Absorbs<S(!new), O(!new)>(apply: (S, O) -> S, a: seq<O>, v: seq<O>) {
    Same(apply, a + v + a, a)
  }

  /** A block that contains both and absorbs both, one after the other, is as good as the block. */
  lemma AroundBoth<S(!new), O(!new)>(apply: (S, O) -> S, a: seq<O>, u: seq<O>, v: seq<O>)
    requires RepeatsAreHarmless(apply) && Absorbs(apply, a, u) && Absorbs(apply, a, v)
    ensures Same(apply, (a + v + a) + (u + v) + (a + u + a), a)
  {
    var x := (a + v + a) + (u + v) + (a + u + a);
    var g := v + a + u;
    assert Same(apply, x, a + g + a) by {
      Twice(apply, a, g, a);
      assert a + (g + g) + a == x;
    }
    assert Same(apply, a + g + a, a + u + a) by {
      SameInside(apply, [], a + v + a, a, u + a);
      assert [] + (a + v + a) + (u + a) == a + g + a;
      assert [] + a + (u + a) == a + u + a;
    }
  }

  lemma AbsorbsBoth<S(!new), O(!new)>(apply: (S, O) -> S, a: seq<O>, u: seq<O>, v: seq<O>)
    requires RepeatsAreHarmless(apply) && Absorbs(apply, a, u) && Absorbs(apply, a, v)
    ensures Absorbs(apply, a, u + v)
  {
    var p, y, q := a + v + a, u + v, a + u + a;
    var x := p + y + q;
    AroundBoth(apply, a, u, v);
    PartIsAbsorbed(apply, p, y, q);
    assert Same(apply, x + y + x, a + y + x) by {
      SameInside(apply, [], x, a, y + x);
      assert [] + x + (y + x) == x + y + x;
      assert [] + a + (y + x) == a + y + x;
    }
    assert Same(apply, a + y + x, a + y + a) by {
      SameInside(apply, a + y, x, a, []);
      assert a + y + x + [] == a + y + x;
      assert a + y + a + [] == a + y + a;
    }
  }

  /** Between two rounds of a block any operations of the block, in any order and number, do nothing. */
  lemma {:induction false} OperationsAreAbsorbed<S(!new), O(!new)>(apply: (S, O) -> S, a: seq<O>, v: seq<O>)
    requires RepeatsAreHarmless(apply) && forall i :: 0 <= i < |v| ==> v[i] in a
    ensures Absorbs(apply, a, v)
  {
    if v == [] {
      Twice(apply, [], a, []);
      assert [] + (a + a) + [] == a + v + a;
      assert [] + a + [] == a;
    } else {
      var init, last := v[..|v| - 1], v[|v| - 1];
      OperationsAreAbsorbed(apply, a, init);
      var i :| 0 <= i < |a| && a[i] == last;
      PartIsAbsorbed(apply, a[..i], [last], a[i + 1..]);
      assert a[..i] + [last] + a[i + 1..] == a;
      AbsorbsBoth(apply, a, init, [last]);
      assert init + [last] == v;
    }
  }

  // ---------------------------------------------------------------------------------------------
  // Readings of a log
  // ---------------------------------------------------------------------------------------------

  /** The operations at the given places of a log, in the given order. */
  function Pick<O>(log: seq<O>, v: seq<nat>): (r: seq<O>)
    requires forall i :: 0 <= i < |v| ==> v[i] < |log|
    ensures |r| == |v|
    ensures forall i :: 0 <= i < |v| ==> r[i] == log[v[i]]
  {
    if v == [] then [] else Pick(log, v[..|v| - 1]) + [log[v[|v| - 1]]]
  }

  /** A reading may go back as far as it likes but never skips forward over an entry. */
  ghost predicate NoSkip(v: seq<nat>) {
    forall i, j :: 0 <= i < j < |v| && j == i + 1 ==> v[j] <= v[i] + 1
  }

  ghost predicate Within(v: seq<nat>, low: nat, high: nat) {
    forall i :: 0 <= i < |v| ==> low <= v[i] < high
  }

  lemma Lowest(v: seq<nat>) returns (t: nat)
    requires v != []
    ensures t < |v| && forall i :: 0 <= i < |v| ==> v[t] <= v[i]
  {
    t := 0;
    for i := 1 to |v|
      invariant t < |v| && forall j :: 0 <= j < i ==> v[t] <= v[j]
    {
      if v[i] < v[t] {
        t := i;
      }
    }
  }

  lemma PicksFromSlice<O>(log: seq<O>, low: nat, high: nat, v: seq<nat>, i: nat)
    requires low <= high <= |log| && Within(v, low, high) && i < |v|
    ensures Pick(log, v)[i] in log[low..high]
  {
    assert log[low..high][v[i] - low] == log[v[i]];
  }

  /** From the highest place back to some place and up again without a skip: that stretch was read before. */
  lemma {:induction false} SecondRound<S(!new), O(!new)>(
    apply: (S, O) -> S, log: seq<O>, low: nat, high: nat, back: nat, v: seq<nat>)
    requires RepeatsAreHarmless(apply)
    requires low <= back <= high <= |log| && Within(v, back, high)
    ensures Same(apply, log[low..high] + Pick(log, v) + log[back..high], log[low..high])
  {
    var p, a, b := log[low..back], log[back..high], Pick(log, v);
    assert log[low..high] == p + a;
    forall i | 0 <= i < |b| ensures b[i] in a {
      PicksFromSlice(log, back, high, v, i);
    }
    OperationsAreAbsorbed(apply, a, b);
    SameInside(apply, p, a + b + a, a, []);
    assert p + (a + b + a) + [] == p + a + b + a;
    assert p + a + [] == p + a;
  }

  lemma Chain<S(!new), O>(apply: (S, O) -> S, whole: seq<O>, a: seq<O>, b: seq<O>, c: seq<O>, d: seq<O>)
    requires Same(apply, [] + a + (b + c), [] + whole + (b + c))
    requires Same(apply, whole + b + c + [], whole + b + d + [])
    requires Same(apply, whole + b + d, whole)
    ensures Same(apply, a + b + c, whole)
  {
    assert [] + a + (b + c) == a + b + c;
    assert [] + whole + (b + c) == whole + b + c;
    assert whole + b + c + [] == whole + b + c;
    assert whole + b + d + [] == whole + b + d;
  }

  lemma PickConcat<O>(log: seq<O>, u: seq<nat>, v: seq<nat>)
    requires Within(u, 0, |log|) && Within(v, 0, |log|)
    ensures Within(u + v, 0, |log|) && Pick(log, u + v) == Pick(log, u) + Pick(log, v)
  {
  }

  /** The reading does what one straight reading from `low` to `high` does. */
  ghost predicate IsStraight<S(!new), O(!new)>(apply: (S, O) -> S, log: seq<O>, v: seq<nat>, low: nat, high: nat) {
    low <= high <= |log| && Within(v, 0, |log|) && Same(apply, Pick(log, v), log[low..high])
  }

  /** The reading reaches the highest place, goes back, and reaches it again. */
  lemma GoesBack<S(!new), O(!new)>(
    apply: (S, O) -> S, log: seq<O>, v: seq<nat>, low: nat, high: nat, back: nat,
    first: seq<nat>, between: seq<nat>, last: seq<nat>)
    requires RepeatsAreHarmless(apply) && low <= back <= high && Within(between, back, high)
    requires IsStraight(apply, log, first, low, high) && IsStraight(apply, log, last, back, high)
    requires v == first + between + last
    ensures IsStraight(apply, log, v, low, high)
  {
    var a, b, c := Pick(log, first), Pick(log, between), Pick(log, last);
    assert Pick(log, v) == a + b + c by {
      PickConcat(log, first, between);
      PickConcat(log, first + between, last);
    }
    SameInside(apply, [], a, log[low..high], b + c);
    SameInside(apply, log[low..high] + b, c, log[back..high], []);
    SecondRound(apply, log, low, high, back, between);
    Chain(apply, log[low..high], a, b, c, log[back..high]);
  }

  /** A reading without skips that starts at its lowest place and ends at its highest. */
  ghost predicate Climbs(v: seq<nat>, low: nat, high: nat) {
    v != [] && v[0] == low && v[|v| - 1] + 1 == high && Within(v, low, high) && NoSkip(v)
  }

  lemma PrefixClimbs(v: seq<nat>, low: nat, high: nat, j: nat)
    requires Climbs(v, low, high) && j < |v| && v[j] + 1 == high
    ensures Climbs(v[..j + 1], low, high)
  {
  }

  lemma SuffixClimbs(v: seq<nat>, low: nat, high: nat, t: nat)
    requires Climbs(v, low, high) && t < |v| && forall i :: t <= i < |v| ==> v[t] <= v[i]
    ensures Climbs(v[t..], v[t], high)
  {
  }

  lemma LowestFrom(v: seq<nat>, from: nat) returns (t: nat)
    requires from < |v|
    ensures from <= t < |v| && forall i :: from <= i < |v| ==> v[t] <= v[i]
  {
    var rest := v[from..];
    var k := Lowest(rest);
    t := from + k;
    forall i | from <= i < |v| ensures v[t] <= v[i] {
      assert rest[i - from] == v[i];
    }
  }

  lemma ClimbsTwice(v: seq<nat>, low: nat, high: nat, j: nat)
    returns (back: nat, first: seq<nat>, between: seq<nat>, last: seq<nat>)
    requires Climbs(v, low, high) && j < |v| - 1 && v[j] + 1 == high
    ensures low <= back < high && v == first + between + last && |first| < |v| && |last| < |v|
    ensures Climbs(first, low, high) && Within(between, back, high) && Climbs(last, back, high)
  {
    var t := LowestFrom(v, j + 1);
    back, first, between, last := v[t], v[..j + 1], v[j + 1..t], v[t..];
    PrefixClimbs(v, low, high, j);
    SuffixClimbs(v, low, high, t);
  }

  lemma ClimbsOnce(v: seq<nat>, low: nat, high: nat) returns (init: seq<nat>)
    requires Climbs(v, low, high) && |v| > 1 && forall j :: 0 <= j < |v| - 1 ==> v[j] + 1 != high
    ensures |init| < |v| && v == init + [high - 1] && Climbs(init, low, high - 1)
  {
    init := v[..|v| - 1];
  }

  lemma SameThen<S(!new), O>(apply: (S, O) -> S, a: seq<O>, b: seq<O>, op: O)
    requires Same(apply, a, b)
    ensures Same(apply, a + [op], b + [op])
  {
    forall s: S ensures Replay(apply, s, a + [op]) == Replay(apply, s, b + [op]) {
      ReplayLast(apply, s, a, op);
      ReplayLast(apply, s, b, op);
    }
  }

  lemma PickThen<O>(log: seq<O>, v: seq<nat>, k: nat)
    requires Within(v, 0, |log|) && k < |log|
    ensures Within(v + [k], 0, |log|) && Pick(log, v + [k]) == Pick(log, v) + [log[k]]
  {
  }

  lemma SliceThen<O>(log: seq<O>, low: nat, high: nat)
    requires low <= high < |log|
    ensures log[low..high + 1] == log[low..high] + [log[high]]
  {
  }

  lemma OneMore<S(!new), O(!new)>(
    apply: (S, O) -> S, log: seq<O>, v: seq<nat>, low: nat, high: nat, init: seq<nat>)
    requires IsStraight(apply, log, init, low, high) && high < |log| && v == init + [high]
    ensures IsStraight(apply, log, v, low, high + 1)
  {
    SameThen(apply, Pick(log, init), log[low..high], log[high]);
    PickThen(log, init, high);
    SliceThen(log, low, high);
  }

  lemma OneStep<S(!new), O(!new)>(apply: (S, O) -> S, log: seq<O>, v: seq<nat>, low: nat, high: nat)
    requires |v| == 1 && Climbs(v, low, high) && high <= |log|
    ensures IsStraight(apply, log, v, low, high)
  {
    assert Pick(log, v) == log[low..high];
  }

  /** It does what one straight reading does. */
  lemma {:induction false} Straightens<S(!new), O(!new)>(
    apply: (S, O) -> S, log: seq<O>, v: seq<nat>, low: nat, high: nat)
    requires RepeatsAreHarmless(apply) && high <= |log| && Climbs(v, low, high)
    ensures IsStraight(apply, log, v, low, high)
    decreases |v|
  {
    if |v| == 1 {
      OneStep(apply, log, v, low, high);
    } else if j :| 0 <= j < |v| - 1 && v[j] + 1 == high {
      var back, first, between, last := ClimbsTwice(v, low, high, j);
      Straightens(apply, log, first, low, high);
      Straightens(apply, log, last, back, high);
      GoesBack(apply, log, v, low, high, back, first, between, last);
    } else {
      var init := ClimbsOnce(v, low, high);
      Straightens(apply, log, init, low, high - 1);
      OneMore(apply, log, v, low, high - 1, init);
    }
  }

  /** A reading of a log of n entries from its start; `pos` entries are behind its current place. */
  ghost predicate Reads(v: seq<nat>, n: nat, pos: nat) {
    && Within(v, 0, n) && NoSkip(v)
    && if v == [] then pos == 0 else v[0] == 0 && pos <= v[|v| - 1] + 1
  }

  lemma ReadsToTheEnd(v: seq<nat>, n: nat, pos: nat)
    requires Reads(v, n, pos) && v != []
    ensures pos <= n && Climbs(v + Range(pos, n), 0, n)
  {
    assert v[|v| - 1] < n;
  }

  lemma PickRange<O>(log: seq<O>, pos: nat)
    requires pos <= |log|
    ensures Pick(log, Range(pos, |log|)) == log[pos..]
  {
  }

  /** Whatever was read so far: reading on to the end gives what one reading of the whole log gives. */
  lemma ReadingOnGivesTheLog<S(!new), O(!new)>(apply: (S, O) -> S, s: S, log: seq<O>, v: seq<nat>, pos: nat)
    requires RepeatsAreHarmless(apply) && Reads(v, |log|, pos)
    ensures pos <= |log|
    ensures Replay(apply, Replay(apply, s, Pick(log, v)), log[pos..]) == Replay(apply, s, log)
  {
    if v == [] {
      assert log[pos..] == log;
    } else {
      ReadsToTheEnd(v, |log|, pos);
      Straightens(apply, log, v + Range(pos, |log|), 0, |log|);
      assert log[0..|log|] == log;
      PickConcat(log, v, Range(pos, |log|));
      PickRange(log, pos);
      ReplayConcat(apply, s, Pick(log, v), log[pos..]);
    }
  }

  // ---------------------------------------------------------------------------------------------
  // Two stores
  // ---------------------------------------------------------------------------------------------

  type Table = map<string, string>

  /** A committed entry as the hash store sees it: an insertion, or something that leaves the store alone. */
  datatype Op = Insert(key: string, value: string) | Nop

  function Apply(s: Table, op: Op): (r: Table) {
    match op
    case Insert(k, v) => s[k := v]
    case Nop => s
  }

  predicate Writes(ops: seq<Op>, k: string) {
    exists i :: 0 <= i < |ops| && ops[i].Insert? && ops[i].key == k
  }

  /** A key the operations write ends up the same from whatever store they start; any other key stays. */
  lemma {:induction false} LastWriterWins(s: Table, t: Table, ops: seq<Op>, k: string)
    ensures
      var a, b := Replay(Apply, s, ops), Replay(Apply, t, ops);
      if Writes(ops, k) then k in a && k in b && a[k] == b[k]
      else (k in a <==> k in s) && (k in a ==> a[k] == s[k])
    decreases |ops|
  {
    if ops != [] {
      LastWriterWins(Apply(s, ops[0]), Apply(t, ops[0]), ops[1..], k);
      if Writes(ops[1..], k) {
        var i :| 0 <= i < |ops[1..]| && ops[1..][i].Insert? && ops[1..][i].key == k;
        assert ops[i + 1] == ops[1..][i];
        assert Writes(ops, k);
      } else if Writes(ops, k) {
        LastWriterWins(Apply(t, ops[0]), Apply(s, ops[0]), ops[1..], k);
      }
    }
  }

  /** The last-writer-wins store has the law. */
  lemma HashStoreForgivesRepeats()
    ensures RepeatsAreHarmless(Apply)
  {
    forall s: Table, ops: seq<Op> ensures Replay(Apply, Replay(Apply, s, ops), ops) == Replay(Apply, s, ops) {
      var once := Replay(Apply, s, ops);
      var twice := Replay(Apply, once, ops);
      forall k ensures (k in twice <==> k in once) && (k in once ==> twice[k] == once[k]) {
        LastWriterWins(once, s, ops, k);
      }
    }
  }

  function Add(total: int, amount: int): (r: int) {
    total + amount
  }

  /** A store that adds up its operations does not: a restored total is too high. */
  lemma AddingStoreIsNotSafe()
    ensures !RepeatsAreHarmless(Add) && !LagIsSafe(Add)
  {
    assert Replay(Add, 1, [1]) == Replay(Add, 2, []) == 2;
    assert Replay(Add, 0, [1]) == Replay(Add, 1, []) == 1;
    assert Replay(Add, Replay(Add, 0, [1]), [1]) != Replay(Add, 0, [1]);
    LagIsSafeIff(Add);
  }
}
