/** The loop's clock: how much of the heartbeat period is left, and when the consensus library ticks. */
module Heartbeat {

  /** The part of the period left at the loop head, and the ticks so far. */
  datatype Clock = Clock(left: int, ticks: nat)

  function Next(period: nat, c: Clock, elapsed: nat): (r: Clock) {
    if elapsed >= c.left then Clock(period, c.ticks + 1) else c.(left := c.left - elapsed)
  }

  function Sum(elapsed: seq<nat>, from: nat, to: nat): (r: nat)
    requires from <= to <= |elapsed|
  {
    if from == to then 0 else Sum(elapsed, from, to - 1) + elapsed[to - 1]
  }

  /** The clock after the first i iterations. */
  function At(period: nat, elapsed: seq<nat>, i: nat): (c: Clock)
    requires i <= |elapsed|
  {
    if i == 0 then Clock(period, 0) else Next(period, At(period, elapsed, i - 1), elapsed[i - 1])
  }

  predicate TicksIn(period: nat, elapsed: seq<nat>, i: nat)
    requires i < |elapsed|
  {
    At(period, elapsed, i + 1).ticks > At(period, elapsed, i).ticks
  }

  /** The iteration after the last tick among the first i, or 0. */
  function LastTick(period: nat, elapsed: seq<nat>, i: nat): (k: nat)
    requires i <= |elapsed|
    ensures k <= i
  {
    if i == 0 then 0 else if TicksIn(period, elapsed, i - 1) then i else LastTick(period, elapsed, i - 1)
  }

  method Run(period: nat, elapsed: seq<nat>) returns (c: Clock)
    ensures c == At(period, elapsed, |elapsed|)
  {
    var heartbeat: int, ticks := period, 0;
    for i := 0 to |elapsed|
      invariant Clock(heartbeat, ticks) == At(period, elapsed, i)
    {
      if elapsed[i] >= heartbeat {
        heartbeat := period;
        ticks := ticks + 1;
      } else {
        heartbeat := heartbeat - elapsed[i];
      }
    }
    c := Clock(heartbeat, ticks);
  }

  /** What is left is the period minus the time since the last tick, and never runs out unseen. */
  lemma {:induction false} LeftIsExact(period: nat, elapsed: seq<nat>, i: nat)
    requires i <= |elapsed|
    ensures
      var left := At(period, elapsed, i).left;
      left == period - Sum(elapsed, LastTick(period, elapsed, i), i) && (left > 0 || left == period)
  {
    if i > 0 {
      LeftIsExact(period, elapsed, i - 1);
    }
  }

  /** A tick fires in exactly those iterations that bring the time since the last one to the period. */
  lemma TicksExactlyWhenDue(period: nat, elapsed: seq<nat>, i: nat)
    requires i < |elapsed|
    ensures TicksIn(period, elapsed, i) <==> Sum(elapsed, LastTick(period, elapsed, i), i + 1) >= period
  {
    LeftIsExact(period, elapsed, i);
  }

  lemma OnePeriodMore(t: nat, period: nat)
    ensures (t + 1) * period == t * period + period
  {
  }

  lemma {:induction false} TicksTakeTime(period: nat, elapsed: seq<nat>, i: nat)
    requires i <= |elapsed|
    ensures At(period, elapsed, i).ticks * period + period - At(period, elapsed, i).left <= Sum(elapsed, 0, i)
  {
    if i > 0 {
      TicksTakeTime(period, elapsed, i - 1);
      var t := At(period, elapsed, i - 1).ticks;
      OnePeriodMore(t, period);
    }
  }

  /** However the time falls, there are no more ticks than whole periods. */
  lemma NoExtraTicks(period: nat, elapsed: seq<nat>, i: nat)
    requires i <= |elapsed|
    ensures At(period, elapsed, i).ticks * period <= Sum(elapsed, 0, i)
  {
    LeftIsExact(period, elapsed, i);
    TicksTakeTime(period, elapsed, i);
  }
}
