/** A stream of WebSocket messages read as a stream of bytes, into buffers of any capacity. */
module WsStream {
  import opened Basics

  /** What polling the socket yields. */
  datatype Poll = Message(data: Bytes) | Failure | Closed | NotYet

  datatype Outcome = Ready | Failed | Eof | Pending

  class WsStream {
    var cachedData: Option<Bytes>
    var idx: nat

    ghost predicate Valid()
      reads this
    {
      if cachedData.Some? then idx < |cachedData.value| else idx == 0
    }

    /** Received but not yet delivered. */
    ghost function Tail(): (r: Bytes)
      requires Valid()
      reads this
    {
      if cachedData.Some? then cachedData.value[idx..] else []
    }

    constructor ()
      ensures Valid() && Tail() == []
    {
      cachedData, idx := None, 0;
    }

    /** Fills a buffer with room for `remaining` bytes; the socket is asked only when nothing is cached. */
    method PollRead(remaining: nat, next: Poll) returns (put: Bytes, outcome: Outcome)
      requires Valid()
      modifies this
      ensures Valid()
      ensures put + Tail() == old(Tail()) + Received(old(cachedData.None?), next)
      ensures |put| == Smaller(remaining, |old(Tail()) + Received(old(cachedData.None?), next)|)
      ensures |put| <= remaining && (|put| == remaining || Tail() == [])
      ensures outcome ==
        if old(cachedData.Some?) || next.Message? then Ready
        else if next.Failure? then Failed
        else if next.Closed? then Eof
        else Pending
    {
      put := [];
      if cachedData.Some? {
        var cachedBuf := cachedData.value[idx..];
        if |cachedBuf| <= remaining {
          put := cachedBuf;
          idx := 0;
          cachedData := None;
        } else {
          put := cachedBuf[..remaining];
          idx := idx + |put|;
        }
        return put, Ready;
      }
      match next {
        case Message(data) =>
          if |data| <= remaining {
            put := data;
          } else {
            put := data[..remaining];
            idx := |put|;
            cachedData := Some(data);
          }
          return put, Ready;
        case Failure => return put, Failed;
        case Closed => return put, Eof;
        case NotYet => return put, Pending;
      }
    }

    /** One read of a series: the socket is asked for its next event only when nothing is cached. */
    method ReadNext(ghost run: Run, capacity: nat, events: seq<Poll>, used: nat) returns (put: Bytes, used': nat)
      requires Valid() && run.tail == Tail() && run.used == used < |events|
      modifies this
      ensures Valid() && Run(run.delivered + put, Tail(), used') == ReadOne(run, capacity, events)
    {
      var ask := cachedData.None?;
      ghost var all := Tail() + Received(ask, events[used]);
      var outcome;
      put, outcome := PollRead(capacity, events[used]);
      used' := if ask then used + 1 else used;
      CutAt(put, Tail(), all);
      OneReadIs(run, capacity, events, put, Tail());
    }

    /**
     Any series of reads, of any capacities, against any series of socket events: each read asks the
     socket only when nothing is cached and delivers what fits, so the bytes delivered followed by the
     cached tail are those cached before and the payloads received, in order.
     */
    method ReadMany(capacities: seq<nat>, events: seq<Poll>) returns (delivered: Bytes, used: nat)
      requires Valid() && |events| >= |capacities|
      modifies this
      ensures Valid() && used <= |capacities|
      ensures Run(delivered, Tail(), used) == ReadAll(old(Tail()), capacities, events)
      ensures delivered + Tail() == old(Tail()) + Payloads(events, used)
      ensures |delivered| <= Total(capacities, |capacities|)
    {
      delivered, used := [], 0;
      ghost var run := Run([], Tail(), 0);
      for i := 0 to |capacities|
        invariant Valid() && run == Run(delivered, Tail(), used)
        invariant run == ReadTo(old(Tail()), capacities, events, i)
      {
        var put, next := ReadNext(run, capacities[i], events, used);
        run := ReadOne(run, capacities[i], events);
        delivered, used := delivered + put, next;
      }
      ReadsConserve(old(Tail()), capacities, events, |capacities|);
    }
  }

  /** Delivered bytes, the cached tail, and how many socket events were used. */
  datatype Run = Run(delivered: Bytes, tail: Bytes, used: nat)

  /** One more read: the socket is asked exactly when nothing is cached. */
  function ReadOne(run: Run, capacity: nat, events: seq<Poll>): (r: Run)
    requires run.used < |events|
  {
    var ask := run.tail == [];
    var all := if ask && events[run.used].Message? then events[run.used].data else run.tail;
    var n := Smaller(capacity, |all|);
    Run(run.delivered + all[..n], all[n..], if ask then run.used + 1 else run.used)
  }

  lemma CutAt(front: Bytes, rest: Bytes, all: Bytes)
    requires front + rest == all
    ensures front == all[..|front|] && rest == all[|front|..]
  {
  }

  lemma OneReadIs(run: Run, capacity: nat, events: seq<Poll>, put: Bytes, rest: Bytes)
    requires run.used < |events|
    requires
      var all := run.tail + Received(run.tail == [], events[run.used]);
      && |put| == Smaller(capacity, |all|) && put == all[..|put|] && rest == all[|put|..]
    ensures ReadOne(run, capacity, events)
      == Run(run.delivered + put, rest, if run.tail == [] then run.used + 1 else run.used)
  {
    var all := run.tail + Received(run.tail == [], events[run.used]);
    assert all == if run.tail == [] && events[run.used].Message? then events[run.used].data else run.tail;
  }

  /** The first n reads. */
  function ReadTo(tail: Bytes, capacities: seq<nat>, events: seq<Poll>, n: nat): (r: Run)
    requires n <= |capacities| <= |events|
    ensures r.used <= n
  {
    if n == 0 then Run([], tail, 0) else ReadOne(ReadTo(tail, capacities, events, n - 1), capacities[n - 1], events)
  }

  function ReadAll(tail: Bytes, capacities: seq<nat>, events: seq<Poll>): (r: Run)
    requires |capacities| <= |events|
  {
    ReadTo(tail, capacities, events, |capacities|)
  }

  /** A read that leaves anything behind has filled its buffer. */
  lemma ReadsFillTheirBuffers(tail: Bytes, capacities: seq<nat>, events: seq<Poll>, n: nat)
    requires 0 < n <= |capacities| <= |events|
    ensures
      var before, after := ReadTo(tail, capacities, events, n - 1), ReadTo(tail, capacities, events, n);
      after.tail != [] ==> |after.delivered| == |before.delivered| + capacities[n - 1]
  {
  }

  /** However the reads fall, nothing is lost, repeated or reordered, and no buffer overflows. */
  lemma {:induction false} ReadsConserve(tail: Bytes, capacities: seq<nat>, events: seq<Poll>, n: nat)
    requires n <= |capacities| <= |events|
    ensures
      var r := ReadTo(tail, capacities, events, n);
      r.delivered + r.tail == tail + Payloads(events, r.used) && |r.delivered| <= Total(capacities, n)
  {
    if n > 0 {
      ReadsConserve(tail, capacities, events, n - 1);
      ConservesOne(ReadTo(tail, capacities, events, n - 1), capacities[n - 1], events, tail);
    } else {
      assert [] + tail == tail + [];
    }
  }

  /** One read cuts what it has into what it delivers and what it keeps. */
  lemma OneReadCuts(run: Run, capacity: nat, events: seq<Poll>, r: Run)
    requires run.used < |events| && r == ReadOne(run, capacity, events)
    ensures r.delivered + r.tail == run.delivered + (run.tail + Received(run.tail == [], events[run.used]))
    ensures |r.delivered| <= |run.delivered| + capacity
    ensures r.used == if run.tail == [] then run.used + 1 else run.used
  {
    var all := if run.tail == [] && events[run.used].Message? then events[run.used].data else run.tail;
    var n := Smaller(capacity, |all|);
    assert all[..n] + all[n..] == all;
    Associative(run.delivered, all[..n], all[n..]);
    assert run.tail + Received(run.tail == [], events[run.used]) == all;
  }

  lemma ConservesOne(run: Run, capacity: nat, events: seq<Poll>, first: Bytes)
    requires run.used < |events| && run.delivered + run.tail == first + Payloads(events, run.used)
    ensures
      var r := ReadOne(run, capacity, events);
      r.delivered + r.tail == first + Payloads(events, r.used) && |r.delivered| <= |run.delivered| + capacity
  {
    OneReadCuts(run, capacity, events, ReadOne(run, capacity, events));
    var received := Received(run.tail == [], events[run.used]);
    Associative(run.delivered, run.tail, received);
    Associative(first, Payloads(events, run.used), received);
    assert Payloads(events, run.used) + [] == Payloads(events, run.used);
  }

  function Smaller(a: nat, b: nat): (r: nat) {
    if a <= b then a else b
  }

  /** The payload a poll brings in, if the socket is asked at all. */
  ghost function Received(ask: bool, next: Poll): (r: Bytes) {
    if ask && next.Message? then next.data else []
  }

  /** What the first n socket events bring in. */
  ghost function Payloads(events: seq<Poll>, n: nat): (r: Bytes)
    requires n <= |events|
  {
    if n == 0 then [] else Payloads(events, n - 1) + Received(true, events[n - 1])
  }

  ghost function Total(capacities: seq<nat>, n: nat): (r: nat)
    requires n <= |capacities|
  {
    if n == 0 then 0 else Total(capacities, n - 1) + capacities[n - 1]
  }
}
