/**
 The Redis key-value store with its length index: a sorted set that holds, for every key, the time
 at which the key expires. The server is modelled by its data and one clock that the client shares;
 an expiring key is live up to and including its deadline.
 */
module RedisIndex {
  import opened Basics

  type Key = Bytes
  /** The score of a key that never expires. */
  const I64_MAX: int := 0x7FFF_FFFF_FFFF_FFFF
  const I64_MIN: int := -0x8000_0000_0000_0000

  datatype Value = Blob(bytes: Bytes) | Number(n: int)

  datatype Cell = Cell(value: Value, deadline: Option<int>)

  datatype Db = Db(kv: map<Key, Cell>, scores: map<Key, int>, now: int)

  predicate LiveAt(db: Db, k: Key, time: int) {
    k in db.kv && (db.kv[k].deadline.None? || time <= db.kv[k].deadline.value)
  }

  /** The key is live at that time and outlasts it. */
  predicate LastsAt(db: Db, k: Key, time: int) {
    k in db.kv && (db.kv[k].deadline.None? || time < db.kv[k].deadline.value)
  }

  predicate Live(db: Db, k: Key) {
    LiveAt(db, k, db.now)
  }

  /** The score that fits a key. */
  function DeadlineOf(db: Db, k: Key): (r: int)
    requires k in db.kv
  {
    if db.kv[k].deadline.None? then I64_MAX else db.kv[k].deadline.value
  }

  // ---------------------------------------------------------------------------------------------
  // Server commands
  // ---------------------------------------------------------------------------------------------

  function Set(db: Db, k: Key, v: Value): (r: Db) {
    db.(kv := db.kv[k := Cell(v, None)])
  }

  function SetAll(db: Db, kvs: seq<(Key, Bytes)>): (r: Db) {
    if kvs == [] then db
    else Set(SetAll(db, kvs[..|kvs| - 1]), kvs[|kvs| - 1].0, Blob(kvs[|kvs| - 1].1))
  }

  function ZAdd(db: Db, k: Key, score: int): (r: Db) {
    db.(scores := db.scores[k := score])
  }

  function ZAddAll(db: Db, kvs: seq<(Key, Bytes)>): (r: Db) {
    if kvs == [] then db
    else ZAdd(ZAddAll(db, kvs[..|kvs| - 1]), kvs[|kvs| - 1].0, I64_MAX)
  }

  /** A deadline in the past deletes the key at once. */
  function PExpireAt(db: Db, k: Key, at: int): (r: Db) {
    if !Live(db, k) then db
    else if at <= db.now then db.(kv := db.kv - {k})
    else db.(kv := db.kv[k := db.kv[k].(deadline := Some(at))])
  }

  predicate IsI64(n: int) {
    I64_MIN <= n <= I64_MAX
  }

  predicate AllDigits(b: Bytes) {
    forall i :: 0 <= i < |b| ==> 48 <= b[i] <= 57
  }

  function Decimal(b: Bytes): (n: nat)
    requires AllDigits(b)
  {
    if b == [] then 0 else 10 * Decimal(b[..|b| - 1]) + (b[|b| - 1] as int - 48)
  }

  /** The number the server reads in a byte string: decimal, a minus sign at most, no leading zeros, 64 bits. */
  function Parse(b: Bytes): (r: Option<int>) {
    var negative := b != [] && b[0] == 45;
    var digits := if negative then b[1..] else b;
    if b == [48] then Some(0)
    else if digits == [] || digits[0] == 48 || !AllDigits(digits) then None
    else
      var n: int := if negative then 0 - Decimal(digits) else Decimal(digits);
      if IsI64(n) then Some(n) else None
  }

  function AsNumber(v: Value): (r: Option<int>) {
    match v
    case Blob(b) => Parse(b)
    case Number(n) => Some(n)
  }

  // ---------------------------------------------------------------------------------------------
  // Numbers as the server writes them
  // ---------------------------------------------------------------------------------------------

  function Digits(n: nat): (b: Bytes) {
    if n < 10 then [48 + n] else Digits(n / 10) + [48 + n % 10]
  }

  /** The decimal spelling of a number. */
  function Spelled(n: int): (b: Bytes) {
    if n < 0 then [45] + Digits(-n) else Digits(n)
  }

  lemma {:induction false} DigitsAreDecimal(n: nat)
    ensures Digits(n) != [] && AllDigits(Digits(n)) && Decimal(Digits(n)) == n
    ensures if n == 0 then Digits(n) == [48] else Digits(n)[0] != 48
  {
    if n >= 10 {
      DigitsAreDecimal(n / 10);
      var init, last := Digits(n / 10), 48 + n % 10;
      assert (init + [last])[..|init|] == init;
    } else {
      assert [48 + n][..0] == [];
    }
  }

  lemma {:induction false} DecimalIsDigits(b: Bytes)
    requires b != [] && AllDigits(b) && b[0] != 48
    ensures Decimal(b) > 0 && Digits(Decimal(b)) == b
  {
    var init, last := b[..|b| - 1], b[|b| - 1];
    assert b == init + [last];
    if init == [] {
      assert Decimal(init) == 0;
    } else {
      DecimalIsDigits(init);
      assert Decimal(b) / 10 == Decimal(init) && Decimal(b) % 10 == last - 48;
    }
  }

  lemma SpelledParses(n: int)
    requires -9_223_372_036_854_775_808 <= n <= 9_223_372_036_854_775_807
    ensures Parse(Spelled(n)) == Some(n)
  {
    if n < 0 {
      DigitsAreDecimal(-n);
      assert Spelled(n)[1..] == Digits(-n);
    } else {
      DigitsAreDecimal(n);
    }
  }

  lemma ParsedNegative(b: Bytes)
    requires Parse(b).Some? && b != [] && b[0] == 45
    ensures b == Spelled(Parse(b).value)
  {
    DecimalIsDigits(b[1..]);
    assert b == [45] + b[1..];
  }

  lemma ParsedPositive(b: Bytes)
    requires Parse(b).Some? && b != [48] && (b == [] || b[0] != 45)
    ensures b == Spelled(Parse(b).value)
  {
    DecimalIsDigits(b);
  }

  lemma ParsedIsSpelled(b: Bytes)
    requires Parse(b).Some?
    ensures -9_223_372_036_854_775_808 <= Parse(b).value <= 9_223_372_036_854_775_807 && b == Spelled(Parse(b).value)
  {
    if b != [] && b[0] == 45 {
      ParsedNegative(b);
    } else if b != [48] {
      ParsedPositive(b);
    }
  }

  /** A stored byte string counts as a number if and only if it is the spelling of a 64-bit number. */
  lemma ParsesIff(b: Bytes, n: int)
    ensures Parse(b) == Some(n) <==>
      -9_223_372_036_854_775_808 <= n <= 9_223_372_036_854_775_807 && b == Spelled(n)
  {
    if Parse(b).Some? {
      ParsedIsSpelled(b);
    }
    if -9_223_372_036_854_775_808 <= n <= 9_223_372_036_854_775_807 && b == Spelled(n) {
      SpelledParses(n);
    }
  }

  /** Adds to a number and keeps its deadline; a missing key counts as zero. */
  function IncrBy(db: Db, k: Key, amount: int): (r: Db) {
    if !Live(db, k) then Set(db, k, Number(amount))
    else
      match AsNumber(db.kv[k].value)
      case None => db
      case Some(n) =>
        if IsI64(n + amount) then db.(kv := db.kv[k := db.kv[k].(value := Number(n + amount))]) else db
  }

  /** The lowest 64-bit number has no negation, so the server refuses to subtract it. */
  function DecrBy(db: Db, k: Key, amount: int): (r: Db) {
    if amount == I64_MIN then db else IncrBy(db, k, -amount)
  }

  function ZRemByScore(db: Db, low: int, high: int): (r: Db) {
    db.(scores := map k | k in db.scores && !(low <= db.scores[k] <= high) :: db.scores[k])
  }

  // ---------------------------------------------------------------------------------------------
  // Operations of the store
  // ---------------------------------------------------------------------------------------------

  datatype Op =
    | Insert(key: Key, value: Bytes)
    | BatchInsert(kvs: seq<(Key, Bytes)>)
    | Remove(key: Key)
    | BatchRemove(keys: seq<Key>)
    | CounterIncr(key: Key, amount: int)
    | CounterDecr(key: Key, amount: int)
    | CounterSet(key: Key, amount: int)
    | ExpireAt(key: Key, at: int)
    | Expire(key: Key, dur: int)
    | Purge
    | Wait(time: nat)

  /** Amounts are 64-bit numbers; the client's time arithmetic and the clock stay within 64 bits. */
  predicate Enabled(db: Db, op: Op) {
    match op
    case CounterIncr(_, n) => IsI64(n)
    case CounterDecr(_, n) => IsI64(n)
    case CounterSet(_, n) => IsI64(n)
    case ExpireAt(_, at) => IsI64(at)
    case Expire(_, dur) => IsI64(db.now + dur)
    case Wait(time) => db.now + time < I64_MAX
    case _ => true
  }

  function Removed(db: Db, keys: set<Key>): (r: Db) {
    db.(kv := db.kv - keys, scores := db.scores - keys)
  }

  function Next(db: Db, op: Op): (r: Db) {
    match op
    case Insert(k, v) => ZAdd(Set(db, k, Blob(v)), k, I64_MAX)
    case BatchInsert(kvs) => ZAddAll(SetAll(db, kvs), kvs)
    case Remove(k) => Removed(db, {k})
    case BatchRemove(ks) => Removed(db, set k | k in ks)
    case CounterIncr(k, n) => ZAdd(IncrBy(db, k, n), k, I64_MAX)
    case CounterDecr(k, n) => ZAdd(DecrBy(db, k, n), k, I64_MAX)
    case CounterSet(k, n) => ZAdd(Set(db, k, Number(n)), k, I64_MAX)
    case ExpireAt(k, at) => PExpireAt(ZAdd(db, k, at), k, at)
    case Expire(k, dur) => PExpireAt(ZAdd(db, k, db.now + dur), k, db.now + dur)
    case Purge => ZRemByScore(db, 0, db.now)
    case Wait(time) => db.(now := db.now + time)
  }

  // ---------------------------------------------------------------------------------------------
  // Counting
  // ---------------------------------------------------------------------------------------------

  /** What `len` answers at a given time. */
  function LenAt(db: Db, time: int): (n: nat) {
    |ZRemByScore(db, 0, time).scores|
  }

  ghost function LiveKeysAt(db: Db, time: int): (r: set<Key>) {
    set k | k in db.kv && LiveAt(db, k, time)
  }

  /** The keys that are live then and outlast it. */
  ghost function LastingKeysAt(db: Db, time: int): (r: set<Key>) {
    set k | k in db.kv && LastsAt(db, k, time)
  }

  /** The keys in the last instant of their life. */
  ghost function ExpiringKeysAt(db: Db, time: int): (r: set<Key>) {
    set k | k in db.kv && db.kv[k].deadline == Some(time)
  }

  lemma LiveKeysSplit(db: Db, time: int)
    ensures |LiveKeysAt(db, time)| == |LastingKeysAt(db, time)| + |ExpiringKeysAt(db, time)|
  {
    assert LiveKeysAt(db, time) == LastingKeysAt(db, time) + ExpiringKeysAt(db, time);
    assert LastingKeysAt(db, time) !! ExpiringKeysAt(db, time);
  }

  ghost predicate KeyCovered(db: Db, k: Key) {
    && (k in db.kv ==> DeadlineOf(db, k) <= I64_MAX)
    && (k in db.scores ==> db.scores[k] <= I64_MAX)
    && (LastsAt(db, k, db.now) ==> k in db.scores && db.scores[k] >= DeadlineOf(db, k))
  }

  /** Every key that outlasts this instant is indexed with a score not before its deadline. */
  ghost predicate Covered(db: Db) {
    0 <= db.now < I64_MAX && forall k :: KeyCovered(db, k)
  }

  ghost predicate KeyExact(db: Db, k: Key) {
    k in db.scores && !(0 <= db.scores[k] <= db.now) ==> LastsAt(db, k, db.now) && db.scores[k] == DeadlineOf(db, k)
  }

  /** Every score a purge would keep belongs to a key that outlasts it and is its deadline. */
  ghost predicate Exact(db: Db) {
    Covered(db) && forall k :: KeyExact(db, k)
  }

  ghost predicate IsRun(trace: seq<Db>, ops: seq<Op>) {
    && |trace| == |ops| + 1
    && 0 <= trace[0].now < I64_MAX && trace[0].kv == map[] && trace[0].scores == map[]
    && forall i :: 0 <= i < |ops| ==> Enabled(trace[i], ops[i]) && trace[i + 1] == Next(trace[i], ops[i])
  }

  /**
   When an operation keeps the count right: expiry in the future is set on a live key only, expiry in
   the past is not before the epoch, and a counter with a deadline is neither raised nor lowered, nor
   a missing one by an amount the server refuses.
   */
  predicate KeepsCount(db: Db, op: Op) {
    match op
    case CounterIncr(k, _) => Live(db, k) ==> DeadlineOf(db, k) == I64_MAX
    case CounterDecr(k, n) =>
      if n == I64_MIN then Live(db, k) && DeadlineOf(db, k) == I64_MAX
      else Live(db, k) ==> DeadlineOf(db, k) == I64_MAX
    case ExpireAt(k, at) => if at > db.now then Live(db, k) else at >= 0
    case Expire(k, dur) => if dur > 0 then Live(db, k) else db.now + dur >= 0
    case _ => true
  }

  predicate OneKey(op: Op) {
    !(op.BatchInsert? || op.BatchRemove? || op.Purge? || op.Wait?)
  }

  lemma {:induction false} SetAllEffect(db: Db, kvs: seq<(Key, Bytes)>)
    ensures
      var r := SetAll(db, kvs);
      && r.scores == db.scores && r.now == db.now
      && forall k ::
           if exists i :: 0 <= i < |kvs| && kvs[i].0 == k then k in r.kv && r.kv[k].deadline.None?
           else (k in r.kv <==> k in db.kv) && (k in db.kv ==> r.kv[k] == db.kv[k])
  {
    if kvs != [] {
      var init := kvs[..|kvs| - 1];
      SetAllEffect(db, init);
      forall k
        ensures var r := SetAll(db, kvs);
          if exists i :: 0 <= i < |kvs| && kvs[i].0 == k then k in r.kv && r.kv[k].deadline.None?
          else (k in r.kv <==> k in db.kv) && (k in db.kv ==> r.kv[k] == db.kv[k])
      {
        if k != kvs[|kvs| - 1].0 {
          assert (exists i :: 0 <= i < |kvs| && kvs[i].0 == k) ==> exists i :: 0 <= i < |init| && init[i].0 == k by {
            if i :| 0 <= i < |kvs| && kvs[i].0 == k {
              assert init[i].0 == k;
            }
          }
        }
      }
    }
  }

  lemma {:induction false} ZAddAllEffect(db: Db, kvs: seq<(Key, Bytes)>)
    ensures
      var r := ZAddAll(db, kvs);
      && r.kv == db.kv && r.now == db.now
      && forall k ::
           if exists i :: 0 <= i < |kvs| && kvs[i].0 == k then k in r.scores && r.scores[k] == I64_MAX
           else (k in r.scores <==> k in db.scores) && (k in db.scores ==> r.scores[k] == db.scores[k])
  {
    if kvs != [] {
      var init := kvs[..|kvs| - 1];
      ZAddAllEffect(db, init);
      forall k
        ensures var r := ZAddAll(db, kvs);
          if exists i :: 0 <= i < |kvs| && kvs[i].0 == k then k in r.scores && r.scores[k] == I64_MAX
          else (k in r.scores <==> k in db.scores) && (k in db.scores ==> r.scores[k] == db.scores[k])
      {
        if k != kvs[|kvs| - 1].0 {
          assert (exists i :: 0 <= i < |kvs| && kvs[i].0 == k) ==> exists i :: 0 <= i < |init| && init[i].0 == k by {
            if i :| 0 <= i < |kvs| && kvs[i].0 == k {
              assert init[i].0 == k;
            }
          }
        }
      }
    }
  }

  /** An operation on one key leaves every other key and its score alone. */
  lemma OneKeyFrame(db: Db, op: Op, k: Key)
    requires OneKey(op) && k != op.key
    ensures
      var r := Next(db, op);
      && r.now == db.now
      && (k in r.kv <==> k in db.kv) && (k in r.kv ==> r.kv[k] == db.kv[k])
      && (k in r.scores <==> k in db.scores) && (k in r.scores ==> r.scores[k] == db.scores[k])
  {
  }

  lemma TouchedKeyCovered(db: Db, op: Op)
    requires Covered(db) && Enabled(db, op) && OneKey(op)
    ensures KeyCovered(Next(db, op), op.key)
  {
    assert KeyCovered(db, op.key);
  }

  lemma CoveredStep(db: Db, op: Op)
    requires Covered(db) && Enabled(db, op)
    ensures Covered(Next(db, op))
  {
    var r := Next(db, op);
    if OneKey(op) {
      forall k ensures KeyCovered(r, k) {
        if k == op.key {
          TouchedKeyCovered(db, op);
        } else {
          OneKeyFrame(db, op, k);
          assert KeyCovered(db, k);
        }
      }
    } else {
      ManyKeysCovered(db, op);
    }
  }

  lemma ManyKeysCovered(db: Db, op: Op)
    requires Covered(db) && Enabled(db, op) && !OneKey(op)
    ensures Covered(Next(db, op))
  {
    if op.BatchInsert? {
      SetAllEffect(db, op.kvs);
      ZAddAllEffect(SetAll(db, op.kvs), op.kvs);
    }
    forall k ensures KeyCovered(Next(db, op), k) {
      assert KeyCovered(db, k);
    }
  }

  lemma {:induction false} CoveredRun(trace: seq<Db>, ops: seq<Op>, i: nat)
    requires IsRun(trace, ops) && i < |trace|
    ensures Covered(trace[i])
  {
    if i > 0 {
      CoveredRun(trace, ops, i - 1);
      CoveredStep(trace[i - 1], ops[i - 1]);
    }
  }

  lemma CoveredKeysSurvivePurge(db: Db, time: int)
    requires Covered(db) && db.now <= time < I64_MAX
    ensures LastingKeysAt(db, time) <= ZRemByScore(db, 0, time).scores.Keys
    ensures |LastingKeysAt(db, time)| <= LenAt(db, time)
  {
    forall k | k in LastingKeysAt(db, time) ensures k in ZRemByScore(db, 0, time).scores {
      assert KeyCovered(db, k) && LastsAt(db, k, db.now);
    }
    SubsetSize(LastingKeysAt(db, time), ZRemByScore(db, 0, time).scores.Keys);
  }

  /** In every run, at every later time, `len` misses no live key but those in the last instant of their life. */
  lemma LenNeverUndercounts(trace: seq<Db>, ops: seq<Op>, i: nat, time: int)
    requires IsRun(trace, ops) && i < |trace| && trace[i].now <= time < I64_MAX
    ensures LenAt(trace[i], time) + |ExpiringKeysAt(trace[i], time)| >= |LiveKeysAt(trace[i], time)|
  {
    CoveredRun(trace, ops, i);
    CoveredKeysSurvivePurge(trace[i], time);
    LiveKeysSplit(trace[i], time);
  }

  // ---------------------------------------------------------------------------------------------
  // What the count misses and what it adds
  // ---------------------------------------------------------------------------------------------

  /** Live keys without a score that survives the purge. */
  ghost function MissedKeysAt(db: Db, time: int): (r: set<Key>) {
    set k | k in db.kv && LiveAt(db, k, time) && k !in ZRemByScore(db, 0, time).scores
  }

  /** Scores that survive the purge without a live key. */
  ghost function StaleScoresAt(db: Db, time: int): (r: set<Key>) {
    set k | k in ZRemByScore(db, 0, time).scores && !LiveAt(db, k, time)
  }

  lemma CountIsOff(db: Db, time: int)
    ensures LenAt(db, time) + |MissedKeysAt(db, time)| == |LiveKeysAt(db, time)| + |StaleScoresAt(db, time)|
  {
    var live, kept := LiveKeysAt(db, time), ZRemByScore(db, 0, time).scores.Keys;
    assert MissedKeysAt(db, time) == live - kept;
    assert StaleScoresAt(db, time) == kept - live;
    SplitSize(live, kept);
    SplitSize(kept, live);
    assert live * kept == kept * live;
  }

  lemma SplitSize<T>(a: set<T>, b: set<T>)
    ensures |a| == |a * b| + |a - b|
  {
    assert a == a * b + (a - b);
  }

  lemma MissedIff(db: Db, time: int, k: Key)
    requires Covered(db) && db.now <= time < I64_MAX && LiveAt(db, k, time)
    ensures k in MissedKeysAt(db, time) <==>
      db.kv[k].deadline == Some(time) && (k in db.scores ==> 0 <= db.scores[k] <= time)
  {
    assert KeyCovered(db, k);
  }

  /**
   In every run, at every later time: `len` is off by the missed keys against the stale scores, and a
   live key is missed exactly in the last instant of its life, when its score is gone or purged.
   */
  lemma LenMissesExactly(trace: seq<Db>, ops: seq<Op>, i: nat, time: int, k: Key)
    requires IsRun(trace, ops) && i < |trace| && trace[i].now <= time < I64_MAX
    ensures
      var db := trace[i];
      && (LenAt(db, time) < |LiveKeysAt(db, time)| <==> |MissedKeysAt(db, time)| > |StaleScoresAt(db, time)|)
      && (k in MissedKeysAt(db, time) <==>
            LiveAt(db, k, time) && db.kv[k].deadline == Some(time) && (k in db.scores ==> 0 <= db.scores[k] <= time))
  {
    CoveredRun(trace, ops, i);
    CountIsOff(trace[i], time);
    if LiveAt(trace[i], k, time) {
      MissedIff(trace[i], time, k);
    }
  }

  /** A run that misses one: a key is inserted, told to expire one instant later, and counted then. */
  lemma ExpiringKeyIsMissed(k: Key, v: Bytes) returns (trace: seq<Db>, ops: seq<Op>)
    ensures IsRun(trace, ops)
    ensures
      var db := trace[|ops|];
      LenAt(db, db.now) == 0 && LiveKeysAt(db, db.now) == {k}
  {
    var d0 := Db(map[], map[], 0);
    var d1 := Next(d0, Insert(k, v));
    var d2 := Next(d1, ExpireAt(k, 1));
    var d3 := Next(d2, Wait(1));
    trace, ops := [d0, d1, d2, d3], [Insert(k, v), ExpireAt(k, 1), Wait(1)];
    assert d3 == Db(map[k := Cell(Blob(v), Some(1))], map[k := 1], 1);
    assert ZRemByScore(d3, 0, 1).scores == map[];
  }

  lemma ExactCounts(db: Db, time: int)
    requires Exact(db) && db.now <= time < I64_MAX
    ensures LenAt(db, time) == |LastingKeysAt(db, time)|
  {
    CoveredKeysSurvivePurge(db, time);
    var kept := ZRemByScore(db, 0, time).scores.Keys;
    forall k | k in kept ensures k in LastingKeysAt(db, time) {
      assert KeyExact(db, k);
    }
    assert kept == LastingKeysAt(db, time);
  }

  /** The index is exact exactly when, while time passes, `len` always is the number of lasting keys. */
  lemma ExactIffCountsStayRight(db: Db)
    requires Covered(db)
    ensures Exact(db) <==> forall time :: db.now <= time < I64_MAX ==> LenAt(db, time) == |LastingKeysAt(db, time)|
  {
    if Exact(db) {
      forall time | db.now <= time < I64_MAX ensures LenAt(db, time) == |LastingKeysAt(db, time)| {
        ExactCounts(db, time);
      }
    } else {
      var k :| !KeyExact(db, k);
      assert KeyCovered(db, k);
      var time := if LastsAt(db, k, db.now) then DeadlineOf(db, k) else db.now;
      CoveredKeysSurvivePurge(db, time);
      SubsetSize(LastingKeysAt(db, time), ZRemByScore(db, 0, time).scores.Keys);
      assert k in ZRemByScore(db, 0, time).scores && k !in LastingKeysAt(db, time);
      assert LenAt(db, time) != |LastingKeysAt(db, time)|;
    }
  }

  /** When only one key changes, only that key decides. */
  lemma OneKeyExact(db: Db, op: Op)
    requires Exact(db) && OneKey(op) && Covered(Next(db, op))
    ensures Exact(Next(db, op)) <==> KeyExact(Next(db, op), op.key)
  {
    forall k | k != op.key ensures KeyExact(Next(db, op), k) {
      OneKeyFrame(db, op, k);
      assert KeyExact(db, k);
    }
  }

  lemma ManyKeysExact(db: Db, op: Op)
    requires Exact(db) && Enabled(db, op) && Covered(Next(db, op))
    requires !OneKey(op)
    ensures Exact(Next(db, op))
  {
    if op.BatchInsert? {
      SetAllEffect(db, op.kvs);
      ZAddAllEffect(SetAll(db, op.kvs), op.kvs);
    }
    forall k ensures KeyExact(Next(db, op), k) {
      assert KeyExact(db, k);
    }
  }

  /** An operation on an exact index keeps it exact exactly under `KeepsCount`. */
  lemma StaysExactIff(db: Db, op: Op)
    requires Exact(db) && Enabled(db, op)
    ensures Exact(Next(db, op)) <==> KeepsCount(db, op)
  {
    assert Covered(Next(db, op)) by { CoveredStep(db, op); }
    if !OneKey(op) {
      ManyKeysExact(db, op);
    } else {
      OneKeyExact(db, op);
      KeyExactIff(db, op);
    }
  }

  lemma KeyExactIff(db: Db, op: Op)
    requires Exact(db) && Enabled(db, op) && OneKey(op)
    ensures KeyExact(Next(db, op), op.key) <==> KeepsCount(db, op)
  {
  }

  lemma {:induction false} ExactRun(trace: seq<Db>, ops: seq<Op>, i: nat)
    requires IsRun(trace, ops) && i < |trace|
    requires forall j :: 0 <= j < |ops| ==> KeepsCount(trace[j], ops[j])
    ensures Exact(trace[i])
  {
    if i > 0 {
      ExactRun(trace, ops, i - 1);
      StaysExactIff(trace[i - 1], ops[i - 1]);
    }
  }

  /**
   In runs of such operations, now and at every later time, `len` is the number of live keys exactly when
   none of them is in the last instant of its life; those are the keys it misses.
   */
  lemma LenIsExact(trace: seq<Db>, ops: seq<Op>, i: nat, time: int)
    requires IsRun(trace, ops) && i < |trace| && trace[i].now <= time < I64_MAX
    requires forall j :: 0 <= j < |ops| ==> KeepsCount(trace[j], ops[j])
    ensures LenAt(trace[i], time) + |ExpiringKeysAt(trace[i], time)| == |LiveKeysAt(trace[i], time)|
    ensures LenAt(trace[i], time) == |LiveKeysAt(trace[i], time)| <==> ExpiringKeysAt(trace[i], time) == {}
  {
    ExactRun(trace, ops, i);
    ExactCounts(trace[i], time);
    LiveKeysSplit(trace[i], time);
  }

  // ---------------------------------------------------------------------------------------------
  // Contents
  // ---------------------------------------------------------------------------------------------

  function Get(db: Db, k: Key): (r: Option<Value>) {
    if Live(db, k) then Some(db.kv[k].value) else None
  }

  function InsertOneByOne(db: Db, kvs: seq<(Key, Bytes)>): (r: Db) {
    if kvs == [] then db
    else Next(InsertOneByOne(db, kvs[..|kvs| - 1]), Insert(kvs[|kvs| - 1].0, kvs[|kvs| - 1].1))
  }

  /** The bulk commands leave what inserting the pairs one after the other leaves. */
  lemma {:induction false} BatchInsertIsInserts(db: Db, kvs: seq<(Key, Bytes)>)
    ensures Next(db, BatchInsert(kvs)) == InsertOneByOne(db, kvs)
  {
    if kvs != [] {
      var init, last := kvs[..|kvs| - 1], kvs[|kvs| - 1];
      BatchInsertIsInserts(db, init);
      SetCommutes(SetAll(db, init), init, last.0, Blob(last.1));
    }
  }

  lemma {:induction false} SetCommutes(db: Db, kvs: seq<(Key, Bytes)>, k: Key, v: Value)
    ensures ZAddAll(Set(db, k, v), kvs) == Set(ZAddAll(db, kvs), k, v)
  {
    if kvs != [] {
      SetCommutes(db, kvs[..|kvs| - 1], k, v);
    }
  }

  /** What is inserted reads back; removing it leaves neither the key nor a score. */
  lemma InsertReadsBack(db: Db, k: Key, v: Bytes)
    ensures
      var r := Next(db, Insert(k, v));
      && Get(r, k) == Some(Blob(v))
      && Next(r, Remove(k)) == Removed(db, {k})
  {
    var r := Next(db, Insert(k, v));
    assert r.kv - {k} == db.kv - {k};
    assert r.scores - {k} == db.scores - {k};
  }

  /**
   Raising a counter and lowering it by the same amount restores it, its deadline included, unless the
   amount is the one the server refuses to subtract.
   */
  lemma IncrThenDecrRestoresIff(db: Db, k: Key, n: int, amount: int)
    requires Live(db, k) && AsNumber(db.kv[k].value) == Some(n) && IsI64(n) && IsI64(amount) && IsI64(n + amount)
    ensures
      var restored := db.kv[k := db.kv[k].(value := Number(n))];
      Next(Next(db, CounterIncr(k, amount)), CounterDecr(k, amount)).kv == restored <==> amount != I64_MIN
  {
    var r := Next(db, CounterIncr(k, amount));
    assert r.kv[k] == db.kv[k].(value := Number(n + amount));
  }

  /** No key outside of `keys`, and no score of such a key, has changed. */
  ghost predicate OthersStay(before: Db, after: Db, keys: set<Key>) {
    && after.now == before.now
    && forall k :: k !in keys ==>
      && (k in after.kv <==> k in before.kv) && (k in after.kv ==> after.kv[k] == before.kv[k])
      && (k in after.scores <==> k in before.scores) && (k in after.scores ==> after.scores[k] == before.scores[k])
  }

  /** What an operation keeps of the index: coverage always, exactness exactly under its condition. */
  ghost predicate IndexKept(before: Db, op: Op, after: Db) {
    && (Covered(before) && Enabled(before, op) ==> Covered(after))
    && (Exact(before) && Enabled(before, op) ==> (Exact(after) <==> KeepsCount(before, op)))
  }

  lemma NextKeepsIndex(db: Db, op: Op)
    ensures IndexKept(db, op, Next(db, op))
  {
    if Enabled(db, op) {
      if Covered(db) {
        CoveredStep(db, op);
      }
      if Exact(db) {
        StaysExactIff(db, op);
      }
    }
  }

  lemma OneKeyStays(db: Db, op: Op)
    requires OneKey(op)
    ensures OthersStay(db, Next(db, op), {op.key})
  {
    forall k | k !in {op.key} {
      OneKeyFrame(db, op, k);
    }
  }

  ghost function KeysOf(kvs: seq<(Key, Bytes)>): (r: set<Key>) {
    set i | 0 <= i < |kvs| :: kvs[i].0
  }

  /** A batch stores, for each key, its last value in the batch. */
  lemma BatchReadsBack(db: Db, kvs: seq<(Key, Bytes)>, i: nat)
    requires i < |kvs| && forall j :: i < j < |kvs| ==> kvs[j].0 != kvs[i].0
    ensures Get(Next(db, BatchInsert(kvs)), kvs[i].0) == Some(Blob(kvs[i].1))
  {
    ZAddAllEffect(SetAll(db, kvs), kvs);
    SetAllLast(db, kvs, i);
  }

  lemma {:induction false} SetAllLast(db: Db, kvs: seq<(Key, Bytes)>, i: nat)
    requires i < |kvs| && forall j :: i < j < |kvs| ==> kvs[j].0 != kvs[i].0
    ensures kvs[i].0 in SetAll(db, kvs).kv && SetAll(db, kvs).kv[kvs[i].0] == Cell(Blob(kvs[i].1), None)
  {
    if i < |kvs| - 1 {
      SetAllLast(db, kvs[..|kvs| - 1], i);
    }
  }

  lemma BatchInsertStays(db: Db, kvs: seq<(Key, Bytes)>)
    ensures OthersStay(db, Next(db, BatchInsert(kvs)), KeysOf(kvs))
  {
    SetAllEffect(db, kvs);
    ZAddAllEffect(SetAll(db, kvs), kvs);
  }

  /** What a counter reads after the server was asked to add to it. */
  function Counted(value: Option<Value>, amount: int): (r: Option<Value>) {
    match value
    case None => Some(Number(amount))
    case Some(v) =>
      if AsNumber(v).Some? && IsI64(AsNumber(v).value + amount) then Some(Number(AsNumber(v).value + amount)) else value
  }

  // ---------------------------------------------------------------------------------------------
  // The store
  // ---------------------------------------------------------------------------------------------

  class RedisStorageDB {
    var db: Db

    constructor (now: int)
      ensures db == Db(map[], map[], now)
    {
      db := Db(map[], map[], now);
    }

    method Insert(key: Key, val: Bytes)
      modifies this
      ensures db == Next(old(db), Op.Insert(key, val))
      ensures IndexKept(old(db), Op.Insert(key, val), db) && OthersStay(old(db), db, {key})
      ensures Get(db, key) == Some(Blob(val)) && forall time :: LiveAt(db, key, time)
    {
      NextKeepsIndex(db, Op.Insert(key, val));
      OneKeyStays(db, Op.Insert(key, val));
      db := Set(db, key, Blob(val));
      db := ZAdd(db, key, I64_MAX);
    }

    method BatchInsert(kvs: seq<(Key, Bytes)>)
      modifies this
      ensures db == Next(old(db), Op.BatchInsert(kvs))
      ensures IndexKept(old(db), Op.BatchInsert(kvs), db) && OthersStay(old(db), db, KeysOf(kvs))
      ensures forall i :: 0 <= i < |kvs| && (forall j :: i < j < |kvs| ==> kvs[j].0 != kvs[i].0) ==>
        Get(db, kvs[i].0) == Some(Blob(kvs[i].1))
    {
      NextKeepsIndex(db, Op.BatchInsert(kvs));
      BatchInsertStays(db, kvs);
      forall i | 0 <= i < |kvs| && (forall j :: i < j < |kvs| ==> kvs[j].0 != kvs[i].0) {
        BatchReadsBack(db, kvs, i);
      }
      if kvs == [] {
        return;
      }
      db := SetAll(db, kvs);
      db := ZAddAll(db, kvs);
    }

    method Remove(key: Key)
      modifies this
      ensures db == Next(old(db), Op.Remove(key))
      ensures IndexKept(old(db), Op.Remove(key), db) && OthersStay(old(db), db, {key})
      ensures Get(db, key) == None && key !in db.scores
    {
      NextKeepsIndex(db, Op.Remove(key));
      OneKeyStays(db, Op.Remove(key));
      db := db.(kv := db.kv - {key});
      db := db.(scores := db.scores - {key});
    }

    method BatchRemove(keys: seq<Key>)
      modifies this
      ensures db == Next(old(db), Op.BatchRemove(keys))
      ensures IndexKept(old(db), Op.BatchRemove(keys), db) && OthersStay(old(db), db, set k | k in keys)
      ensures forall k :: k in keys ==> Get(db, k) == None && k !in db.scores
    {
      NextKeepsIndex(db, Op.BatchRemove(keys));
      if keys == [] {
        return;
      }
      db := db.(kv := db.kv - set k | k in keys);
      db := db.(scores := db.scores - set k | k in keys);
    }

    method CounterIncr(key: Key, increment: int)
      modifies this
      ensures db == Next(old(db), Op.CounterIncr(key, increment))
      ensures IndexKept(old(db), Op.CounterIncr(key, increment), db) && OthersStay(old(db), db, {key})
      ensures Get(db, key) == Counted(old(Get(db, key)), increment)
      ensures old(Live(db, key)) ==> forall time :: LiveAt(db, key, time) <==> old(LiveAt(db, key, time))
    {
      NextKeepsIndex(db, Op.CounterIncr(key, increment));
      OneKeyStays(db, Op.CounterIncr(key, increment));
      db := IncrBy(db, key, increment);
      db := ZAdd(db, key, I64_MAX);
    }

    method CounterDecr(key: Key, decrement: int)
      modifies this
      ensures db == Next(old(db), Op.CounterDecr(key, decrement))
      ensures IndexKept(old(db), Op.CounterDecr(key, decrement), db) && OthersStay(old(db), db, {key})
      ensures Get(db, key) == if decrement == I64_MIN then old(Get(db, key)) else Counted(old(Get(db, key)), -decrement)
      ensures old(Live(db, key)) ==> forall time :: LiveAt(db, key, time) <==> old(LiveAt(db, key, time))
    {
      NextKeepsIndex(db, Op.CounterDecr(key, decrement));
      OneKeyStays(db, Op.CounterDecr(key, decrement));
      db := DecrBy(db, key, decrement);
      db := ZAdd(db, key, I64_MAX);
    }

    method CounterSet(key: Key, val: int)
      modifies this
      ensures db == Next(old(db), Op.CounterSet(key, val))
      ensures IndexKept(old(db), Op.CounterSet(key, val), db) && OthersStay(old(db), db, {key})
      ensures Get(db, key) == Some(Number(val)) && forall time :: LiveAt(db, key, time)
    {
      NextKeepsIndex(db, Op.CounterSet(key, val));
      OneKeyStays(db, Op.CounterSet(key, val));
      db := Set(db, key, Number(val));
      db := ZAdd(db, key, I64_MAX);
    }

    method ExpireAt(key: Key, at: int) returns (found: bool)
      modifies this
      ensures db == Next(old(db), Op.ExpireAt(key, at)) && found == old(Live(db, key))
      ensures IndexKept(old(db), Op.ExpireAt(key, at), db) && OthersStay(old(db), db, {key})
      ensures Get(db, key) == if at > db.now then old(Get(db, key)) else None
      ensures found ==> forall time :: time >= db.now ==> (LiveAt(db, key, time) <==> at > db.now && time <= at)
    {
      NextKeepsIndex(db, Op.ExpireAt(key, at));
      OneKeyStays(db, Op.ExpireAt(key, at));
      db := ZAdd(db, key, at);
      found := Live(db, key);
      db := PExpireAt(db, key, at);
    }

    method Expire(key: Key, dur: int) returns (found: bool)
      modifies this
      ensures db == Next(old(db), Op.Expire(key, dur)) && found == old(Live(db, key))
      ensures IndexKept(old(db), Op.Expire(key, dur), db) && OthersStay(old(db), db, {key})
      ensures Get(db, key) == if dur > 0 then old(Get(db, key)) else None
      ensures found ==> forall time :: time >= db.now ==> (LiveAt(db, key, time) <==> dur > 0 && time <= db.now + dur)
    {
      NextKeepsIndex(db, Op.Expire(key, dur));
      OneKeyStays(db, Op.Expire(key, dur));
      db := ZAdd(db, key, db.now + dur);
      found := Live(db, key);
      db := PExpireAt(db, key, db.now + dur);
    }

    method Cleanup()
      modifies this
      ensures db == Next(old(db), Op.Purge) && IndexKept(old(db), Op.Purge, db)
      ensures forall k :: Get(db, k) == old(Get(db, k))
      ensures Covered(old(db)) ==> LastingKeysAt(db, db.now) <= db.scores.Keys
      ensures Exact(old(db)) ==> db.scores.Keys == LastingKeysAt(db, db.now)
    {
      ghost var before := db;
      NextKeepsIndex(db, Op.Purge);
      db := ZRemByScore(db, 0, db.now);
      if Covered(before) {
        CoveredKeysSurvivePurge(before, before.now);
        assert LastingKeysAt(db, db.now) == LastingKeysAt(before, before.now);
      }
      if Exact(before) {
        forall k | k in db.scores ensures k in LastingKeysAt(db, db.now) {
          assert KeyExact(before, k);
        }
      }
    }

    method Len() returns (count: nat)
      modifies this
      ensures db == Next(old(db), Op.Purge)
      ensures count == LenAt(old(db), old(db).now)
      ensures Covered(old(db)) ==> count + |ExpiringKeysAt(db, db.now)| >= |LiveKeysAt(db, db.now)|
      ensures Exact(old(db)) ==> count + |ExpiringKeysAt(db, db.now)| == |LiveKeysAt(db, db.now)|
    {
      ghost var before := db;
      db := ZRemByScore(db, 0, db.now);
      count := |db.scores|;
      LiveKeysSplit(before, before.now);
      assert LiveKeysAt(db, db.now) == LiveKeysAt(before, before.now);
      assert ExpiringKeysAt(db, db.now) == ExpiringKeysAt(before, before.now);
      if Covered(before) {
        CoveredKeysSurvivePurge(before, before.now);
      }
      if Exact(before) {
        ExactCounts(before, before.now);
      }
    }
  }
}
