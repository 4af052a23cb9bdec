/** When proposals get their number: as soon as the batch is full or its collection time is over, not before. */
module BatchTiming {
  import opened Basics
  import opened Batching
  import opened Driver
  import opened Selection

  /** What is queued when the event looks whether a batch is due. */
  ghost function Gathered(s: State, e: Event): (items: seq<Item>) {
    if e.Propose? then s.node.queue.items + [Item(e.data, e.chan)] else s.node.queue.items
  }

  /** The event looks whether a batch is due: an accepted proposal, or an idle loop. */
  ghost predicate Looks(e: Event) {
    e.Idle? || (e.Propose? && e.leader && !e.busy)
  }

  /** Something is queued, and it fills a batch or has been collected for longer than the timeout. */
  ghost predicate Due(s: State, e: Event) {
    && Looks(e)
    && Gathered(s, e) != []
    && (|Gathered(s, e)| >= s.node.queue.size || e.now > s.node.queue.started + s.node.queue.timeout)
  }

  /** Everything queued takes the next number: its clients are parked, and the log gets it if it is accepted. */
  ghost predicate TakesAll(s: State, e: Event, t: State)
    requires Looks(e)
  {
    var items := Gathered(s, e);
    && t.node.queue == s.node.queue.(items := [], started := e.stamp)
    && t.past.rounds == s.past.rounds + [BatchRound(items)] && t.node.next == s.node.next + 1
    && t.node.parked.Keys == s.node.parked.Keys + {s.node.next}
    && (forall k :: k in s.node.parked && k != s.node.next ==> t.node.parked[k] == s.node.parked[k])
    && ChansInOrder(t.node.parked[s.node.next]) == Chans(items)
    && (if e.ok then
          && |t.node.log| == |s.node.log| + 1 && t.node.log[..|s.node.log|] == s.node.log
          && var entry := t.node.log[|s.node.log|];
          entry.own && entry.num == s.node.next && entry.body.Batch? && InOrder(entry.body.proposals) == Datas(items)
        else t.node.log == s.node.log)
  }

  /** Everything stays queued; no number is given out. */
  ghost predicate KeepsAll(s: State, e: Event, t: State) {
    && t.node.queue == s.node.queue.(items := Gathered(s, e))
    && t.past.rounds == s.past.rounds && t.node.next == s.node.next
    && t.node.parked == s.node.parked && t.node.log == s.node.log
  }

  lemma TakesWhole(n: Node, now: int, stamp: int, ok: bool)
    requires 0 < |n.queue.items| <= n.queue.size
    requires |n.queue.items| == n.queue.size || now > n.queue.started + n.queue.timeout
    ensures
      var r, items := TakeAndPropose(n, now, stamp, ok), n.queue.items;
      && BatchReady(n.queue, now) && Taken(n.queue) == items
      && r == n.(queue := n.queue.(items := [], started := stamp),
                 parked := n.parked[n.next := PackChans(items)],
                 next := n.next + 1,
                 log := if ok then n.log + [Entry(true, n.next, Batch(Pack(items)))] else n.log)
  {
    TakeEmptiesQueue(n.queue, stamp);
  }

  /** Where the event leaves the node: the queue with what it adds, asked for a batch. */
  lemma LookingTakes(s: State, e: Event, n: Node)
    requires Looks(e) && n == s.node.(queue := s.node.queue.(items := Gathered(s, e)))
    ensures NextNode(s.node, e) == TakeAndPropose(n, e.now, e.stamp, e.ok)
    ensures NextPast(s, e).rounds == NextRounds(n, s.past.rounds, e.now)
  {
    assert e.Idle? ==> n == s.node;
  }

  lemma Parks(parked: map<nat, ReplyChan>, next: nat, items: seq<Item>, after: map<nat, ReplyChan>)
    requires after == parked[next := PackChans(items)]
    ensures after.Keys == parked.Keys + {next} && ChansInOrder(after[next]) == Chans(items)
    ensures forall k :: k in parked && k != next ==> after[k] == parked[k]
  {
    PackInOrder(items);
  }

  lemma Logs(log: seq<Entry>, num: nat, items: seq<Item>, after: seq<Entry>)
    requires after == log + [Entry(true, num, Batch(Pack(items)))]
    ensures |after| == |log| + 1 && after[..|log|] == log && after[|log|].own && after[|log|].num == num
    ensures after[|log|].body.Batch? && InOrder(after[|log|].body.proposals) == Datas(items)
  {
    PackInOrder(items);
  }

  lemma DueTakesAll(s: State, e: Event, t: State)
    requires OrderInv(s) && Enabled(s, e) && t == Next(s, e) && Due(s, e)
    ensures TakesAll(s, e, t)
  {
    var items := Gathered(s, e);
    var n := s.node.(queue := s.node.queue.(items := items));
    LookingTakes(s, e, n);
    TakesWhole(n, e.now, e.stamp, e.ok);
    Parks(s.node.parked, s.node.next, items, t.node.parked);
    if e.ok {
      Logs(s.node.log, s.node.next, items, t.node.log);
    }
  }

  lemma NotDueKeepsAll(s: State, e: Event, t: State)
    requires OrderInv(s) && Enabled(s, e) && t == Next(s, e) && Looks(e) && !Due(s, e)
    ensures KeepsAll(s, e, t)
  {
    var n := s.node.(queue := s.node.queue.(items := Gathered(s, e)));
    LookingTakes(s, e, n);
    ReadyIff(n.queue, e.now);
  }

  /**
   In every run, at every accepted proposal and every idle loop: if the queue then fills a batch or its
   collection time is over, the whole queue takes the next number; otherwise queue, table, numbers and
   log stay, but for the new proposal at the end of the queue.
   */
  lemma BatchLeavesExactlyWhenDue(trace: seq<State>, events: seq<Event>, i: nat)
    requires IsRunFromStart(trace, events) && i < |events| && Looks(events[i])
    ensures if Due(trace[i], events[i]) then TakesAll(trace[i], events[i], trace[i + 1])
            else KeepsAll(trace[i], events[i], trace[i + 1])
  {
    OrderRun(trace, events, i);
    if Due(trace[i], events[i]) {
      DueTakesAll(trace[i], events[i], trace[i + 1]);
    } else {
      NotDueKeepsAll(trace[i], events[i], trace[i + 1]);
    }
  }

  // ---------------------------------------------------------------------------------------------
  // When a proposal gets its number
  // ---------------------------------------------------------------------------------------------

  /** How many of the accepted proposals have a number. */
  ghost function Given(s: State): (n: nat) {
    |Flatten(s.past.rounds)|
  }

  ghost predicate SameTiming(s: State, t: State) {
    t.node.queue.size == s.node.queue.size && t.node.queue.timeout == s.node.queue.timeout
  }

  lemma OtherEventsGive(s: State, e: Event, t: State)
    requires OrderInv(s) && Enabled(s, e) && t == Next(s, e) && !Looks(e)
    ensures Given(t) == Given(s) && t.past.accepted == s.past.accepted && t.node.queue == s.node.queue
  {
    if e.Commit? {
      HandleCalls(s.node, e.canceled);
    } else if e.ConfigChange? && e.leader {
      FlattenAppend(s.past.rounds, ConfigRound(Addressed(s.node, e.change), e.chan));
    }
  }

  /** From one state to a later one: proposals are only added, and a batch that was due numbers them all. */
  ghost predicate Moves(s: State, due: bool, t: State) {
    && s.past.accepted <= t.past.accepted && SameTiming(s, t) && Given(s) <= Given(t)
    && (if due then |s.past.accepted| <= Given(t)
        else Given(t) == Given(s) && t.node.queue.started == s.node.queue.started)
  }

  lemma MovesOn(r: State, due: bool, s: State, more: bool, t: State)
    requires Moves(r, due, s) && Moves(s, more, t)
    ensures Moves(r, due || more, t)
  {
  }

  lemma GivenStep(s: State, e: Event, t: State)
    requires OrderInv(s) && OrderInv(t) && Enabled(s, e) && t == Next(s, e)
    ensures Moves(s, Due(s, e), t)
  {
    if Looks(e) {
      if Due(s, e) {
        DueTakesAll(s, e, t);
      } else {
        NotDueKeepsAll(s, e, t);
      }
    } else {
      OtherEventsGive(s, e, t);
    }
  }

  lemma GivenAcross(trace: seq<State>, events: seq<Event>, i: nat)
    requires IsRunFromStart(trace, events) && i < |events|
    ensures Moves(trace[i], Due(trace[i], events[i]), trace[i + 1])
  {
    OrderRun(trace, events, i);
    OrderRun(trace, events, i + 1);
    GivenStep(trace[i], events[i], trace[i + 1]);
  }

  /** Some event from the i-th up to but not including the j-th finds a batch due. */
  ghost predicate SomeDue(trace: seq<State>, events: seq<Event>, i: nat, j: nat)
    requires |trace| == |events| + 1 && j <= |events|
  {
    exists k {:trigger events[k]} :: i <= k < j && Due(trace[k], events[k])
  }

  /** For each event whether it finds a batch due. */
  ghost function Dues(trace: seq<State>, events: seq<Event>, n: nat): (r: seq<bool>)
    requires |trace| == |events| + 1 && n <= |events|
    ensures |r| == n && forall k :: 0 <= k < n ==> r[k] == Due(trace[k], events[k])
  {
    if n == 0 then [] else Dues(trace, events, n - 1) + [Due(trace[n - 1], events[n - 1])]
  }

  ghost predicate AnyIn(due: seq<bool>, i: nat, j: nat)
    requires j <= |due|
  {
    exists k :: i <= k < j && due[k]
  }

  lemma {:induction false} MovesRun(trace: seq<State>, due: seq<bool>, i: nat, j: nat)
    requires |trace| == |due| + 1 && i <= j <= |due|
    requires forall k {:trigger due[k]} :: 0 <= k < |due| ==> Moves(trace[k], due[k], trace[k + 1])
    ensures Moves(trace[i], AnyIn(due, i, j), trace[j])
    decreases j
  {
    if i < j {
      MovesRun(trace, due, i, j - 1);
      assert AnyIn(due, i, j) == (AnyIn(due, i, j - 1) || due[j - 1]);
      MovesOn(trace[i], AnyIn(due, i, j - 1), trace[j - 1], due[j - 1], trace[j]);
    }
  }

  lemma GivenRun(trace: seq<State>, events: seq<Event>, i: nat, j: nat)
    requires IsRunFromStart(trace, events) && i <= j < |trace|
    ensures Moves(trace[i], SomeDue(trace, events, i, j), trace[j])
  {
    var due := Dues(trace, events, |events|);
    forall k {:trigger due[k]} | 0 <= k < |due| ensures Moves(trace[k], due[k], trace[k + 1]) {
      GivenAcross(trace, events, k);
    }
    MovesRun(trace, due, i, j);
    SameDue(trace, events, due, i, j);
  }

  lemma SameDue(trace: seq<State>, events: seq<Event>, due: seq<bool>, i: nat, j: nat)
    requires |trace| == |events| + 1 && i <= j <= |events| == |due|
    requires forall k :: 0 <= k < |due| ==> due[k] == Due(trace[k], events[k])
    ensures SomeDue(trace, events, i, j) == AnyIn(due, i, j)
  {
    if SomeDue(trace, events, i, j) {
      var k :| i <= k < j && Due(trace[k], events[k]);
      assert due[k];
    }
    if AnyIn(due, i, j) {
      var k :| i <= k < j && due[k];
      assert Due(trace[k], events[k]);
    }
  }

  lemma GivenAreAccepted(trace: seq<State>, events: seq<Event>, i: nat)
    requires IsRunFromStart(trace, events) && i < |trace|
    ensures Flatten(trace[i].past.rounds) + trace[i].node.queue.items == trace[i].past.accepted
  {
    OrderRun(trace, events, i);
  }

  /**
   In every run, a proposal that waits in the queue has a number later on if and only if a batch was due
   in between; and then it is that proposal that has it.
   */
  lemma NumberedIffDue(trace: seq<State>, events: seq<Event>, i: nat, j: nat, a: nat)
    requires IsRunFromStart(trace, events) && i <= j < |trace|
    requires Given(trace[i]) <= a < |trace[i].past.accepted|
    ensures a < Given(trace[j]) <==> SomeDue(trace, events, i, j)
    ensures a < Given(trace[j]) ==> Flatten(trace[j].past.rounds)[a] == trace[i].past.accepted[a]
  {
    GivenRun(trace, events, i, j);
    GivenAreAccepted(trace, events, j);
  }

  /**
   No proposal waits past its timeout: whatever happened since, it has a number after the first idle loop
   or accepted proposal at which the clock is past the start of the collection plus the timeout.
   */
  lemma NoProposalOutwaitsTheTimeout(trace: seq<State>, events: seq<Event>, i: nat, j: nat, a: nat)
    requires IsRunFromStart(trace, events) && i <= j < |events| && a < |trace[i].past.accepted|
    requires Looks(events[j])
    requires events[j].now > trace[i].node.queue.started + trace[i].node.queue.timeout
    ensures a < Given(trace[j + 1]) && Flatten(trace[j + 1].past.rounds)[a] == trace[i].past.accepted[a]
  {
    GivenRun(trace, events, i, j);
    GivenAcross(trace, events, j);
    GivenAreAccepted(trace, events, j);
    GivenAreAccepted(trace, events, j + 1);
    assert a >= Given(trace[j]) ==> Gathered(trace[j], events[j]) != [];
  }
}
