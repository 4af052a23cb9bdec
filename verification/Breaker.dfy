/** The per-peer circuit breaker of the driver's outgoing calls. */
module Breaker {

  datatype Config = Config(threshold: nat, interval: nat)

  /** Failures since the last success, and when the last of them was recorded. */
  datatype Gate = Gate(fails: nat, failTime: int)

  /** A call checked at `check` and, if let through, answered at `done`. */
  datatype Call = Call(check: int, done: int, ok: bool)

  predicate Open(c: Config, g: Gate, now: int) {
    g.fails < c.threshold || now - g.failTime > c.interval
  }

  function Next(c: Config, g: Gate, call: Call): (r: Gate) {
    if !Open(c, g, call.check) then g
    else if call.ok then g.(fails := 0)
    else Gate(g.fails + 1, call.done)
  }

  class Peer {
    var grpcFails: nat
    var grpcFailTime: int
    const cfg: Config

    ghost function Model(): (g: Gate)
      reads this
    {
      Gate(grpcFails, grpcFailTime)
    }

    constructor (cfg: Config)
      ensures this.cfg == cfg && Model() == Gate(0, 0)
    {
      this.cfg, grpcFails, grpcFailTime := cfg, 0, 0;
    }

    /** Sends one message; the clock readings and the remote's answer come from outside. */
    method Send(call: Call) returns (sent: bool, ok: bool)
      modifies this
      ensures Model() == Next(cfg, old(Model()), call)
      ensures sent == Open(cfg, old(Model()), call.check) && ok == (sent && call.ok)
    {
      if !(grpcFails < cfg.threshold || call.check - grpcFailTime > cfg.interval) {
        return false, false;
      }
      if call.ok {
        grpcFails := 0;
      } else {
        grpcFails := grpcFails + 1;
        grpcFailTime := call.done;
      }
      return true, call.ok;
    }
  }

  /** A run of one caller: each call ends before the next is checked. */
  ghost predicate IsRun(c: Config, trace: seq<Gate>, calls: seq<Call>) {
    && |trace| == |calls| + 1
    && trace[0] == Gate(0, 0)
    && (forall i :: 0 <= i < |calls| ==> calls[i].check <= calls[i].done)
    && (forall i :: 0 < i < |calls| ==> calls[i - 1].done <= calls[i].check)
    && forall i :: 0 <= i < |calls| ==> trace[i + 1] == Next(c, trace[i], calls[i])
  }

  ghost predicate Sent(c: Config, trace: seq<Gate>, calls: seq<Call>, i: nat)
    requires IsRun(c, trace, calls) && i < |calls|
  {
    Open(c, trace[i], calls[i].check)
  }

  /** The results of the calls that were let through, among the first n. */
  ghost function Results(c: Config, trace: seq<Gate>, calls: seq<Call>, n: nat): (r: seq<bool>)
    requires IsRun(c, trace, calls) && n <= |calls|
  {
    if n == 0 then []
    else Results(c, trace, calls, n - 1) + if Sent(c, trace, calls, n - 1) then [calls[n - 1].ok] else []
  }

  /** How many results at the end are failures. */
  ghost function TrailingFailures(results: seq<bool>): (n: nat) {
    if results == [] || results[|results| - 1] then 0 else TrailingFailures(results[..|results| - 1]) + 1
  }

  /** The failure count is the length of the failure streak the peer is in. */
  lemma {:induction false} FailsAreTheStreak(c: Config, trace: seq<Gate>, calls: seq<Call>, n: nat)
    requires IsRun(c, trace, calls) && n <= |calls|
    ensures trace[n].fails == TrailingFailures(Results(c, trace, calls, n))
  {
    if n > 0 {
      FailsAreTheStreak(c, trace, calls, n - 1);
      var before := Results(c, trace, calls, n - 1);
      if Sent(c, trace, calls, n - 1) {
        assert (before + [calls[n - 1].ok])[..|before|] == before;
      } else {
        assert before + [] == before;
      }
    }
  }

  /** When the last failure was recorded among the first n calls; 0 if there was none. */
  ghost function LastFailure(c: Config, trace: seq<Gate>, calls: seq<Call>, n: nat): (t: int)
    requires IsRun(c, trace, calls) && n <= |calls|
  {
    if n == 0 then 0
    else if Sent(c, trace, calls, n - 1) && !calls[n - 1].ok then calls[n - 1].done
    else LastFailure(c, trace, calls, n - 1)
  }

  lemma {:induction false} FailTimeIsLastFailure(c: Config, trace: seq<Gate>, calls: seq<Call>, n: nat)
    requires IsRun(c, trace, calls) && n <= |calls|
    ensures trace[n].failTime == LastFailure(c, trace, calls, n)
  {
    if n > 0 {
      FailTimeIsLastFailure(c, trace, calls, n - 1);
    }
  }

  /**
   In every run a call is let through if and only if the failure streak among the calls let through
   before is shorter than the threshold, or more than the retry interval has passed since the last
   failure. A call that is not let through changes nothing.
   */
  lemma LetThroughIff(c: Config, trace: seq<Gate>, calls: seq<Call>, i: nat)
    requires IsRun(c, trace, calls) && i < |calls|
    ensures Sent(c, trace, calls, i) <==>
      || TrailingFailures(Results(c, trace, calls, i)) < c.threshold
      || calls[i].check - LastFailure(c, trace, calls, i) > c.interval
    ensures !Sent(c, trace, calls, i) ==> trace[i + 1] == trace[i]
  {
    FailsAreTheStreak(c, trace, calls, i);
    FailTimeIsLastFailure(c, trace, calls, i);
  }

  /** How many calls from `from` up to but not including `to` were let through and failed. */
  ghost function Failures(c: Config, trace: seq<Gate>, calls: seq<Call>, from: nat, to: nat): (n: nat)
    requires IsRun(c, trace, calls) && from <= to <= |calls|
  {
    if to == from then 0
    else
      Failures(c, trace, calls, from, to - 1)
      + if Sent(c, trace, calls, to - 1) && !calls[to - 1].ok then 1 else 0
  }

  ghost predicate NoSuccess(c: Config, trace: seq<Gate>, calls: seq<Call>, from: nat, to: nat)
    requires IsRun(c, trace, calls) && to <= |calls|
  {
    forall i :: from <= i < to ==> !(Sent(c, trace, calls, i) && calls[i].ok)
  }

  /** The failures a breaker forgives before it spaces the calls out. */
  function Free(c: Config): (n: nat) {
    if c.threshold == 0 then 1 else c.threshold
  }

  lemma OneMore(k: int, d: int)
    ensures (k + 1) * d == k * d + d
  {
  }

  lemma NotPositive(k: int, d: nat)
    requires k <= 0
    ensures k * d <= 0
  {
  }

  lemma {:induction false} FailuresAreSpaced(
    c: Config, trace: seq<Gate>, calls: seq<Call>, from: nat, to: nat, start: int)
    requires IsRun(c, trace, calls) && from <= to <= |calls|
    requires NoSuccess(c, trace, calls, from, to)
    requires forall i :: from <= i < to ==> start <= calls[i].check
    ensures
      var m := Failures(c, trace, calls, from, to);
      && trace[to].fails >= m
      && (m > 0 ==> start <= trace[to].failTime <= calls[to - 1].done)
      && (m > 0 ==> (m - Free(c)) * (c.interval + 1) <= trace[to].failTime - start)
  {
    if to > from {
      FailuresAreSpaced(c, trace, calls, from, to - 1, start);
      var m := Failures(c, trace, calls, from, to - 1);
      var call := calls[to - 1];
      if Sent(c, trace, calls, to - 1) && !call.ok {
        OneMore(m - Free(c), c.interval + 1);
        if m < Free(c) {
          NotPositive(m + 1 - Free(c), c.interval + 1);
        } else {
          assert trace[to - 1].fails >= c.threshold;
        }
      }
    }
  }

  lemma DivideBound(k: int, d: int, t: int)
    requires d > 0 && k * d <= t
    ensures k <= t / d
  {
    var q := t / d;
    OneMore(q, d);
    if k > q {
      Scaled(q + 1, k, d);
    }
  }

  lemma Scaled(a: int, b: int, d: nat)
    requires a <= b
    ensures a * d <= b * d
  {
  }

  /**
   While a peer does not succeed, at most the threshold plus one call per retry interval fail: in any
   window of `end - start` milliseconds without a success, however often it is called.
   */
  lemma FailureRateIsBounded(c: Config, trace: seq<Gate>, calls: seq<Call>, from: nat, to: nat, start: int, end: int)
    requires IsRun(c, trace, calls) && from <= to <= |calls| && start <= end
    requires NoSuccess(c, trace, calls, from, to)
    requires forall i :: from <= i < to ==> start <= calls[i].check && calls[i].done <= end
    ensures Failures(c, trace, calls, from, to)
      <= (if c.threshold == 0 then 1 else c.threshold) + (end - start) / (c.interval + 1)
  {
    var m := Failures(c, trace, calls, from, to);
    FailuresAreSpaced(c, trace, calls, from, to, start);
    if m > 0 {
      DivideBound(m - Free(c), c.interval + 1, end - start);
    }
  }
}
