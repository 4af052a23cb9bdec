/** The sliding-window event recorder: a window cut into buckets that are reused when they are old. */
module TimeoutWindow {
  import opened Basics

  datatype Bucket = Bucket(timestamp: int, count: nat)

  datatype Config = Config(window: nat, buckets: nat) {
    /** How long one bucket collects. */
    function Duration(): (d: nat)
      requires buckets >= 1
      ensures d <= window
    {
      window / buckets
    }
  }

  /** An event and the bucket it was put in, whichever one. */
  datatype Event = Event(time: int, bucket: nat)

  datatype Recorder = Recorder(buckets: seq<Bucket>, max: nat)

  function Start(c: Config, now: int): (r: Recorder) {
    Recorder(seq(c.buckets, _ => Bucket(now, 0)), 0)
  }

  /** The bucket is too old to go on collecting. */
  predicate Stale(c: Config, b: Bucket, now: int)
    requires c.buckets >= 1
  {
    now - b.timestamp >= c.window || now - b.timestamp >= c.Duration()
  }

  function Incr(c: Config, r: Recorder, e: Event): (r': Recorder)
    requires c.buckets >= 1 && e.bucket < |r.buckets|
  {
    var b := r.buckets[e.bucket];
    var kept := if Stale(c, b, e.time) then Bucket(e.time, 0) else b;
    Recorder(r.buckets[e.bucket := kept.(count := kept.count + 1)], r.max + 1)
  }

  /** The count of the first n buckets that are young enough. */
  function Sum(buckets: seq<Bucket>, n: nat, oldest: int): (r: nat)
    requires n <= |buckets|
  {
    if n == 0 then 0
    else Sum(buckets, n - 1, oldest) + if oldest <= buckets[n - 1].timestamp then buckets[n - 1].count else 0
  }

  function Get(c: Config, r: Recorder, now: int): (n: nat) {
    Sum(r.buckets, |r.buckets|, now - c.window)
  }

  function RecentGet(c: Config, r: Recorder, now: int, bucket: nat): (n: nat)
    requires c.buckets >= 1 && bucket < |r.buckets|
  {
    if now - r.buckets[bucket].timestamp <= c.Duration() then r.buckets[bucket].count else 0
  }

  class TimeoutRecorder {
    var buckets: seq<Bucket>
    var max: nat
    const cfg: Config

    ghost predicate Valid()
      reads this
    {
      cfg.buckets >= 1 && |buckets| == cfg.buckets
    }

    ghost function Model(): (r: Recorder)
      reads this
    {
      Recorder(buckets, max)
    }

    constructor (cfg: Config, now: int)
      requires cfg.buckets >= 1
      ensures Valid() && this.cfg == cfg && Model() == Start(cfg, now)
    {
      this.cfg := cfg;
      buckets, max := seq(cfg.buckets, _ => Bucket(now, 0)), 0;
    }

    method Record(now: int, index: nat)
      requires Valid() && index < |buckets|
      modifies this
      ensures Valid() && Model() == Incr(cfg, old(Model()), Event(now, index))
    {
      var bucket := buckets[index];
      var dur := now - bucket.timestamp;
      if dur >= cfg.window || dur >= cfg.Duration() {
        bucket := Bucket(now, 0);
      }
      buckets := buckets[index := bucket.(count := bucket.count + 1)];
      max := max + 1;
    }

    method Count(now: int) returns (total: nat)
      requires Valid()
      ensures total == Get(cfg, Model(), now)
    {
      total := 0;
      for i := 0 to |buckets|
        invariant total == Sum(buckets, i, now - cfg.window)
      {
        if now - buckets[i].timestamp <= cfg.window {
          total := total + buckets[i].count;
        }
      }
    }
  }

  /** A run that begins at the instant `start`; time does not go back. */
  ghost predicate IsRun(c: Config, start: int, trace: seq<Recorder>, events: seq<Event>) {
    && c.buckets >= 1
    && |trace| == |events| + 1
    && trace[0] == Start(c, start)
    && (forall i :: 0 <= i < |events| ==> start <= events[i].time)
    && (forall i, j :: 0 <= i < j < |events| ==> events[i].time <= events[j].time)
    && (forall i :: 0 <= i < |trace| ==> |trace[i].buckets| == c.buckets)
    && (forall i {:trigger events[i]} :: 0 <= i < |events| ==>
          events[i].bucket < c.buckets && trace[i + 1] == Incr(c, trace[i], events[i]))
  }

  /** How many events are not older than `oldest`. */
  ghost function Since(events: seq<Event>, oldest: int): (n: nat) {
    |Window(events, |events|, oldest)|
  }

  /** The positions of those among the first i. */
  ghost function Window(events: seq<Event>, i: nat, oldest: int): (r: set<nat>)
    requires i <= |events|
  {
    set j: nat | j < i && oldest <= events[j].time
  }

  // ---------------------------------------------------------------------------------------------
  // What a bucket counts
  // ---------------------------------------------------------------------------------------------

  /** The first event that can be in a bucket's present collection, and when that collection began. */
  datatype Epoch = Epoch(first: nat, began: int)

  /**
   The epoch a bucket is in after the first i events, told by the times of the events alone: an event put
   in it begins a new one exactly when it comes a bucket length or more after the present one began.
   */
  ghost function EpochOf(c: Config, start: int, events: seq<Event>, i: nat, b: nat): (e: Epoch)
    requires c.buckets >= 1 && i <= |events|
    ensures e.first <= i
  {
    if i == 0 then Epoch(0, start)
    else
      var e := EpochOf(c, start, events, i - 1, b);
      if events[i - 1].bucket == b && events[i - 1].time - e.began >= c.window / c.buckets
      then Epoch(i - 1, events[i - 1].time)
      else e
  }

  ghost function PutIn(events: seq<Event>, from: nat, i: nat, b: nat): (r: set<nat>)
    requires i <= |events|
  {
    set j: nat | from <= j < i && events[j].bucket == b
  }

  /** The events in a bucket's present epoch. */
  ghost function Collected(c: Config, start: int, events: seq<Event>, i: nat, b: nat): (r: set<nat>)
    requires c.buckets >= 1 && i <= |events|
  {
    PutIn(events, EpochOf(c, start, events, i, b).first, i, b)
  }

  lemma PutInNext(events: seq<Event>, from: nat, i: nat, b: nat)
    requires from <= i < |events|
    ensures PutIn(events, from, i + 1, b) == PutIn(events, from, i, b) + if events[i].bucket == b then {i} else {}
    ensures i !in PutIn(events, from, i, b) && PutIn(events, i, i, b) == {}
  {
  }

  lemma PutInSizeNext(events: seq<Event>, from: nat, i: nat, b: nat)
    requires from <= i < |events|
    ensures |PutIn(events, from, i + 1, b)| == |PutIn(events, from, i, b)| + if events[i].bucket == b then 1 else 0
    ensures |PutIn(events, i, i, b)| == 0
  {
    PutInNext(events, from, i, b);
  }

  lemma StartBucket(c: Config, start: int, trace: seq<Recorder>, events: seq<Event>, b: nat)
    requires IsRun(c, start, trace, events) && b < c.buckets
    ensures trace[0].buckets[b] == Bucket(start, 0) && trace[0].max == 0
  {
  }

  /** A bucket is never longer than the window, so its length decides. */
  lemma StaleIff(c: Config, b: Bucket, now: int)
    requires c.buckets >= 1
    ensures Stale(c, b, now) <==> now - b.timestamp >= c.window / c.buckets
  {
    var d := c.Duration();
    assert d == c.window / c.buckets && d <= c.window;
    StaleBy(c, b, now, d);
  }

  lemma StaleBy(c: Config, b: Bucket, now: int, d: nat)
    requires c.buckets >= 1 && d == c.Duration() && d <= c.window
    ensures Stale(c, b, now) <==> now - b.timestamp >= d
  {
  }

  lemma BucketAfter(c: Config, r: Recorder, e: Event, b: nat)
    requires c.buckets >= 1 && e.bucket < |r.buckets| && b < |r.buckets|
    ensures Incr(c, r, e).buckets[b] ==
      if e.bucket != b then r.buckets[b]
      else if e.time - r.buckets[b].timestamp >= c.window / c.buckets then Bucket(e.time, 1)
      else r.buckets[b].(count := r.buckets[b].count + 1)
  {
    StaleIff(c, r.buckets[b], e.time);
  }

  lemma IncrBucket(c: Config, start: int, trace: seq<Recorder>, events: seq<Event>, i: nat, b: nat)
    requires IsRun(c, start, trace, events) && i < |events| && b < c.buckets
    ensures
      var before, after, e := trace[i].buckets[b], trace[i + 1].buckets[b], events[i];
      after ==
        if e.bucket != b then before
        else if e.time - before.timestamp >= c.window / c.buckets then Bucket(e.time, 1)
        else before.(count := before.count + 1)
    ensures trace[i + 1].max == trace[i].max + 1
  {
    assert trace[i + 1] == Incr(c, trace[i], events[i]);
    BucketAfter(c, trace[i], events[i], b);
  }

  /** All events since the epoch are since it began. */
  lemma {:induction false} EpochIsSinceItBegan(
    c: Config, start: int, trace: seq<Recorder>, events: seq<Event>, i: nat, b: nat)
    requires IsRun(c, start, trace, events) && i < |trace| && b < c.buckets
    ensures forall j :: EpochOf(c, start, events, i, b).first <= j < |events| ==>
      EpochOf(c, start, events, i, b).began <= events[j].time
    ensures trace[i].max == i
  {
    if i > 0 {
      EpochIsSinceItBegan(c, start, trace, events, i - 1, b);
      IncrBucket(c, start, trace, events, i - 1, b);
    }
  }

  lemma CollectedNext(c: Config, start: int, events: seq<Event>, i: nat, b: nat)
    requires c.buckets >= 1 && i < |events|
    ensures
      var e := EpochOf(c, start, events, i, b);
      |Collected(c, start, events, i + 1, b)| ==
        if events[i].bucket != b then |Collected(c, start, events, i, b)|
        else if events[i].time - e.began >= c.window / c.buckets then 1
        else |Collected(c, start, events, i, b)| + 1
  {
    PutInSizeNext(events, EpochOf(c, start, events, i + 1, b).first, i, b);
  }

  /** A bucket holds when its epoch began and counts exactly the events in it. */
  lemma {:induction false} BucketCountsEpoch(
    c: Config, start: int, trace: seq<Recorder>, events: seq<Event>, i: nat, b: nat)
    requires IsRun(c, start, trace, events) && i < |trace| && b < c.buckets
    ensures trace[i].buckets[b]
      == Bucket(EpochOf(c, start, events, i, b).began, |Collected(c, start, events, i, b)|)
  {
    if i == 0 {
      StartBucket(c, start, trace, events, b);
      assert PutIn(events, 0, 0, b) == {};
    } else {
      BucketCountsEpoch(c, start, trace, events, i - 1, b);
      IncrBucket(c, start, trace, events, i - 1, b);
      CollectedNext(c, start, events, i - 1, b);
    }
  }

  // ---------------------------------------------------------------------------------------------
  // What the window count sees
  // ---------------------------------------------------------------------------------------------

  /** The event was not forgotten when its bucket restarted, and the bucket is young enough to be counted. */
  ghost predicate Seen(c: Config, start: int, events: seq<Event>, i: nat, oldest: int, j: nat)
    requires c.buckets >= 1 && j < i <= |events|
  {
    var e := EpochOf(c, start, events, i, events[j].bucket);
    e.first <= j && oldest <= e.began
  }

  ghost function SeenIn(c: Config, start: int, events: seq<Event>, i: nat, oldest: int, n: nat): (r: set<nat>)
    requires c.buckets >= 1 && i <= |events|
  {
    set j: nat | j < i && events[j].bucket < n && Seen(c, start, events, i, oldest, j)
  }

  lemma SeenInNext(c: Config, start: int, events: seq<Event>, i: nat, oldest: int, n: nat)
    requires c.buckets >= 1 && i <= |events|
    ensures
      var own := Collected(c, start, events, i, n);
      && own !! SeenIn(c, start, events, i, oldest, n)
      && SeenIn(c, start, events, i, oldest, n + 1)
         == SeenIn(c, start, events, i, oldest, n)
            + if oldest <= EpochOf(c, start, events, i, n).began then own else {}
  {
  }

  lemma DisjointSizes<T>(a: set<T>, b: set<T>)
    requires a !! b
    ensures |a + b| == |a| + |b|
  {
  }

  lemma SeenInGrows(
    c: Config, start: int, trace: seq<Recorder>, events: seq<Event>, i: nat, oldest: int, n: nat)
    requires IsRun(c, start, trace, events) && i < |trace| && n < c.buckets
    ensures |SeenIn(c, start, events, i, oldest, n + 1)|
      == |SeenIn(c, start, events, i, oldest, n)|
         + if oldest <= trace[i].buckets[n].timestamp then trace[i].buckets[n].count else 0
  {
    BucketCountsEpoch(c, start, trace, events, i, n);
    SeenInNext(c, start, events, i, oldest, n);
    DisjointSizes(SeenIn(c, start, events, i, oldest, n), Collected(c, start, events, i, n));
  }

  lemma {:induction false} SumCountsSeen(
    c: Config, start: int, trace: seq<Recorder>, events: seq<Event>, i: nat, oldest: int, n: nat)
    requires IsRun(c, start, trace, events) && i < |trace| && n <= c.buckets
    ensures Sum(trace[i].buckets, n, oldest) == |SeenIn(c, start, events, i, oldest, n)|
  {
    if n == 0 {
      assert SeenIn(c, start, events, i, oldest, n) == {};
    } else {
      SumCountsSeen(c, start, trace, events, i, oldest, n - 1);
      SeenInGrows(c, start, trace, events, i, oldest, n - 1);
    }
  }

  lemma SeenIsInWindow(c: Config, start: int, trace: seq<Recorder>, events: seq<Event>, i: nat, oldest: int)
    requires IsRun(c, start, trace, events) && i < |trace|
    ensures SeenIn(c, start, events, i, oldest, c.buckets) <= Window(events, i, oldest)
  {
    forall j | j in SeenIn(c, start, events, i, oldest, c.buckets) ensures j in Window(events, i, oldest) {
      EpochIsSinceItBegan(c, start, trace, events, i, events[j].bucket);
    }
  }

  lemma SinceIsWindow(events: seq<Event>, i: nat, oldest: int)
    requires i <= |events|
    ensures Since(events[..i], oldest) == |Window(events, i, oldest)|
  {
    assert Window(events[..i], i, oldest) == Window(events, i, oldest);
  }

  lemma GetCountsSeen(c: Config, start: int, trace: seq<Recorder>, events: seq<Event>, i: nat, now: int)
    requires IsRun(c, start, trace, events) && i < |trace|
    ensures
      var seen, window := SeenIn(c, start, events, i, now - c.window, c.buckets), Window(events, i, now - c.window);
      && Get(c, trace[i], now) == |seen| <= |window| == Since(events[..i], now - c.window)
      && (|seen| == |window| ==> seen == window)
  {
    SumCountsSeen(c, start, trace, events, i, now - c.window, c.buckets);
    SeenIsInWindow(c, start, trace, events, i, now - c.window);
    SinceIsWindow(events, i, now - c.window);
    SubsetSize(SeenIn(c, start, events, i, now - c.window, c.buckets), Window(events, i, now - c.window));
  }

  /**
   At any instant and for any choice of buckets the window count is the number of events in the window
   if and only if each of them is still in the epoch of its bucket and that began within the window.
   The epochs are those of the event times.
   */
  lemma CountIsExactIff(c: Config, start: int, trace: seq<Recorder>, events: seq<Event>, i: nat, now: int)
    requires IsRun(c, start, trace, events) && i < |trace|
    ensures Get(c, trace[i], now) == Since(events[..i], now - c.window) <==>
      forall j {:trigger events[j]} :: 0 <= j < i && now - c.window <= events[j].time ==>
        Seen(c, start, events, i, now - c.window, j)
  {
    GetCountsSeen(c, start, trace, events, i, now);
    AllSeenIff(c, start, trace, events, i, now - c.window);
  }

  lemma AllSeenIff(c: Config, start: int, trace: seq<Recorder>, events: seq<Event>, i: nat, oldest: int)
    requires IsRun(c, start, trace, events) && i < |trace|
    ensures SeenIn(c, start, events, i, oldest, c.buckets) == Window(events, i, oldest) <==>
      forall j {:trigger events[j]} :: 0 <= j < i && oldest <= events[j].time ==> Seen(c, start, events, i, oldest, j)
  {
    var seen, window := SeenIn(c, start, events, i, oldest, c.buckets), Window(events, i, oldest);
    SeenIsInWindow(c, start, trace, events, i, oldest);
    if seen == window {
      forall j {:trigger events[j]} | 0 <= j < i && oldest <= events[j].time
        ensures Seen(c, start, events, i, oldest, j)
      {
        assert j in window;
      }
    }
  }

  /** The event comes a bucket length but not more than a window after the non-empty epoch of its bucket began. */
  ghost predicate ReusesEarly(c: Config, start: int, events: seq<Event>, i: nat)
    requires c.buckets >= 1 && i < |events|
  {
    var b := events[i].bucket;
    && Collected(c, start, events, i, b) != {}
    && c.window / c.buckets <= events[i].time - EpochOf(c, start, events, i, b).began <= c.window
  }

  lemma EarlyReuseForgets(c: Config, start: int, trace: seq<Recorder>, events: seq<Event>, i: nat) returns (j: nat)
    requires IsRun(c, start, trace, events) && i < |events| && ReusesEarly(c, start, events, i)
    ensures j < i && events[i].time - c.window <= events[j].time
    ensures !Seen(c, start, events, i + 1, events[i].time - c.window, j)
  {
    var b := events[i].bucket;
    EpochIsSinceItBegan(c, start, trace, events, i, b);
    j :| j in Collected(c, start, events, i, b);
    assert EpochOf(c, start, events, i + 1, b).first == i;
  }

  /** One way to fall short: whenever a bucket is reused early, events of the window are forgotten. */
  lemma EarlyReuseUndercounts(c: Config, start: int, trace: seq<Recorder>, events: seq<Event>, i: nat)
    requires IsRun(c, start, trace, events) && i < |events| && ReusesEarly(c, start, events, i)
    ensures Get(c, trace[i + 1], events[i].time) < Since(events[..i + 1], events[i].time - c.window)
  {
    var now := events[i].time;
    assert Get(c, trace[i + 1], now) != Since(events[..i + 1], now - c.window) by {
      var j := EarlyReuseForgets(c, start, trace, events, i);
      CountIsExactIff(c, start, trace, events, i + 1, now);
    }
    GetCountsSeen(c, start, trace, events, i + 1, now);
  }

  // ---------------------------------------------------------------------------------------------
  // The recent count
  // ---------------------------------------------------------------------------------------------

  lemma {:induction false} SumHoldsBucket(buckets: seq<Bucket>, n: nat, oldest: int, b: nat)
    requires b < n <= |buckets| && oldest <= buckets[b].timestamp
    ensures buckets[b].count <= Sum(buckets, n, oldest)
  {
    if b < n - 1 {
      SumHoldsBucket(buckets, n - 1, oldest, b);
    }
  }

  /**
   At any instant the recent count is the number of events in the epoch of the bucket, up to and
   including a bucket length after that began, and then nothing; the window count has all of them as long
   as the epoch began within the window.
   */
  lemma EpochIsCounted(
    c: Config, start: int, trace: seq<Recorder>, events: seq<Event>, i: nat, now: int, b: nat)
    requires IsRun(c, start, trace, events) && i < |trace| && b < c.buckets
    ensures
      var began, collected := EpochOf(c, start, events, i, b).began, |Collected(c, start, events, i, b)|;
      && RecentGet(c, trace[i], now, b) == (if now - began <= c.window / c.buckets then collected else 0)
      && (now - began <= c.window ==> collected <= Get(c, trace[i], now))
  {
    BucketCountsEpoch(c, start, trace, events, i, b);
    if now - EpochOf(c, start, events, i, b).began <= c.window {
      SumHoldsBucket(trace[i].buckets, c.buckets, now - c.window, b);
    }
  }

  /** No event between the two puts the bucket into a new epoch when they all come soon enough. */
  lemma {:induction false} SameEpoch(c: Config, start: int, events: seq<Event>, from: nat, i: nat, b: nat, e: Epoch)
    requires c.buckets >= 1 && from <= i <= |events| && e == EpochOf(c, start, events, from, b)
    requires forall j :: from <= j < i && events[j].bucket == b ==> events[j].time - e.began < c.window / c.buckets
    ensures EpochOf(c, start, events, i, b) == e
    decreases i - from
  {
    if from < i {
      SameEpoch(c, start, events, from, i - 1, b, e);
    }
  }

  /**
   A burst is counted in full: the events put in one bucket, from one that begins its epoch on and all
   sooner than a bucket length after it, are what the recent count gives at the last of them, and all of
   them are in the window count.
   */
  lemma BurstIsCounted(
    c: Config, start: int, trace: seq<Recorder>, events: seq<Event>, from: nat, i: nat, b: nat)
    requires IsRun(c, start, trace, events) && from < i <= |events| && b < c.buckets && events[from].bucket == b
    requires events[from].time - EpochOf(c, start, events, from, b).began >= c.window / c.buckets
    requires forall j :: from < j < i && events[j].bucket == b ==>
      events[j].time - events[from].time < c.window / c.buckets
    requires events[i - 1].bucket == b
    ensures RecentGet(c, trace[i], events[i - 1].time, b) == |PutIn(events, from, i, b)|
      <= Get(c, trace[i], events[i - 1].time)
  {
    SameEpoch(c, start, events, from + 1, i, b, Epoch(from, events[from].time));
    EpochIsCounted(c, start, trace, events, i, events[i - 1].time, b);
  }

  /** Within a bucket length of the start nothing is forgotten. */
  lemma FirstBurstIsCounted(c: Config, start: int, trace: seq<Recorder>, events: seq<Event>, i: nat, b: nat)
    requires IsRun(c, start, trace, events) && i <= |events| && b < c.buckets
    requires forall j :: 0 <= j < i ==> events[j].time - start < c.window / c.buckets
    ensures RecentGet(c, trace[i], start + c.window / c.buckets, b) == |PutIn(events, 0, i, b)|
    ensures Get(c, trace[i], start + c.window / c.buckets) == i
  {
    SameEpoch(c, start, events, 0, i, b, Epoch(0, start));
    EpochIsCounted(c, start, trace, events, i, start + c.window / c.buckets, b);
    AllEventsCount(c, start, trace, events, i, start + c.window / c.buckets);
  }

  lemma AllEventsCount(c: Config, start: int, trace: seq<Recorder>, events: seq<Event>, i: nat, now: int)
    requires IsRun(c, start, trace, events) && i <= |events| && now - start <= c.window
    requires forall j :: 0 <= j < i ==> events[j].time - start < c.window / c.buckets
    ensures Get(c, trace[i], now) == i
  {
    forall j {:trigger events[j]} | 0 <= j < i ensures Seen(c, start, events, i, now - c.window, j) {
      SameEpoch(c, start, events, 0, i, events[j].bucket, Epoch(0, start));
    }
    CountIsExactIff(c, start, trace, events, i, now);
    SinceIsWindow(events, i, now - c.window);
    AllInWindow(events, i, now - c.window);
  }

  lemma {:induction false} AllInWindow(events: seq<Event>, i: nat, oldest: int)
    requires i <= |events| && forall j :: 0 <= j < i ==> oldest <= events[j].time
    ensures |Window(events, i, oldest)| == i
  {
    if i == 0 {
      assert Window(events, i, oldest) == {};
    } else {
      AllInWindow(events, i - 1, oldest);
      assert Window(events, i, oldest) == Window(events, i - 1, oldest) + {i - 1};
    }
  }

  /** A bucket counts at most the events since any time before its epoch began. */
  lemma BucketIsHonest(
    c: Config, start: int, trace: seq<Recorder>, events: seq<Event>, i: nat, b: nat, oldest: int)
    requires IsRun(c, start, trace, events) && i < |trace| && b < c.buckets
    requires oldest <= EpochOf(c, start, events, i, b).began
    ensures |Collected(c, start, events, i, b)| <= Since(events[..i], oldest)
  {
    EpochIsSinceItBegan(c, start, trace, events, i, b);
    SinceIsWindow(events, i, oldest);
    SubsetSize(Collected(c, start, events, i, b), Window(events, i, oldest));
  }

  /**
   At any instant and for any choice of buckets the recorder never overstates: not the window, not the
   last bucket length, not the one against the other; and `max` is the number of all events.
   */
  lemma CountsNeverOverstate(
    c: Config, start: int, trace: seq<Recorder>, events: seq<Event>, i: nat, now: int, bucket: nat)
    requires IsRun(c, start, trace, events) && i < |trace| && bucket < c.buckets
    ensures RecentGet(c, trace[i], now, bucket) <= Get(c, trace[i], now) <= Since(events[..i], now - c.window)
    ensures RecentGet(c, trace[i], now, bucket) <= Since(events[..i], now - c.window / c.buckets)
    ensures trace[i].max == i
  {
    GetCountsSeen(c, start, trace, events, i, now);
    EpochIsSinceItBegan(c, start, trace, events, i, bucket);
    EpochIsCounted(c, start, trace, events, i, now, bucket);
    if now - EpochOf(c, start, events, i, bucket).began <= c.window / c.buckets {
      BucketIsHonest(c, start, trace, events, i, bucket, now - c.window / c.buckets);
    }
  }
}
