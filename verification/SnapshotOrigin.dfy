/**
 Where the snapshot a node serves comes from: which label it has, which store its data was read from, and
 that the log begins no earlier; and that every node can get to the end of the log.
 */
module SnapshotOrigin {
  import opened Basics
  import opened LogStorage
  import opened Selection
  import opened StoreLaw
  import opened Cluster
  import opened Retention

  // ---------------------------------------------------------------------------------------------
  // Following one spawned snapshot
  // ---------------------------------------------------------------------------------------------

  /** Where a node's p-th pending task is after a step; nowhere once it is delivered. */
  function SlotAfter<S, O>(step: Step<S, O>, id: nat, p: nat): (r: Option<nat>) {
    if !(step.Deliver? && step.id == id) then Some(p)
    else if step.task == p then None
    else if step.task < p then Some(p - 1)
    else Some(p)
  }

  /** Where a snapshot begun at step i is in line before step j; it came behind `before` others. */
  function Slot<S, O>(steps: seq<Step<S, O>>, i: nat, j: nat, id: nat, before: nat): (r: Option<nat>)
    requires i < j <= |steps|
    decreases j
  {
    if j == i + 1 then Some(before)
    else
      match Slot(steps, i, j - 1, id, before)
      case None => None
      case Some(p) => SlotAfter(steps[j - 1], id, p)
  }

  /** The node begins a snapshot at step i, and before step j that is its p-th pending task. */
  ghost predicate Pending<S(!new), O>(
    apply: (S, O) -> S, trace: seq<State<S, O>>, steps: seq<Step<S, O>>, i: nat, j: nat, id: nat, p: nat)
    requires IsRun(apply, trace, steps)
  {
    && i < j <= |steps| && steps[i] == Begin(id)
    && Slot(steps, i, j, id, |trace[i].nodes[id].tasks|) == Some(p)
  }

  /** The data was read for it at step k: the store of that moment. */
  ghost predicate ReadFor<S(!new), O>(
    apply: (S, O) -> S, trace: seq<State<S, O>>, steps: seq<Step<S, O>>, i: nat, k: nat, id: nat, data: S)
    requires IsRun(apply, trace, steps)
  {
    && i < k < |steps| && steps[k].Read? && steps[k].id == id
    && Pending(apply, trace, steps, i, k, id, steps[k].task)
    && data == trace[k].nodes[id].store
  }

  ghost predicate WasRead<S(!new), O>(
    apply: (S, O) -> S, trace: seq<State<S, O>>, steps: seq<Step<S, O>>, i: nat, j: nat, id: nat, data: S)
    requires IsRun(apply, trace, steps)
  {
    exists k: nat :: k < j && ReadFor(apply, trace, steps, i, k, id, data)
  }

  /** What the node keeps for it: the label of step i and, once read, the data of that moment. */
  ghost predicate TaskIs<S(!new), O>(
    apply: (S, O) -> S, trace: seq<State<S, O>>, steps: seq<Step<S, O>>, i: nat, j: nat, id: nat, t: Task<S>)
    requires IsRun(apply, trace, steps) && i < |steps| && steps[i] == Begin(id)
  {
    && t.index == trace[i].nodes[id].applied
    && (t.data.Some? ==> WasRead(apply, trace, steps, i, j, id, t.data.value))
  }

  lemma BegunNow<S(!new), O>(
    apply: (S, O) -> S, trace: seq<State<S, O>>, steps: seq<Step<S, O>>, i: nat, id: nat)
    requires IsRun(apply, trace, steps) && i < |steps| && steps[i] == Begin(id)
    ensures id in trace[i].nodes && id in trace[i + 1].nodes
    ensures trace[i + 1].nodes[id].tasks == trace[i].nodes[id].tasks + [Task(trace[i].nodes[id].applied, None)]
  {
    assert trace[i + 1] == Next(apply, trace[i], steps[i]);
  }

  /** How a step moves a node's pending snapshots. */
  lemma TasksAfter<S, O>(apply: (S, O) -> S, s: State<S, O>, step: Step<S, O>, id: nat, t: State<S, O>, p: nat)
    requires Enabled(s, step) && t == Next(apply, s, step) && id in s.nodes && p < |s.nodes[id].tasks|
    ensures id in t.nodes
    ensures
      var q := SlotAfter(step, id, p);
      q.Some? ==>
        && q.value < |t.nodes[id].tasks|
        && t.nodes[id].tasks[q.value] ==
           if step == Read(id, p) then Task(s.nodes[id].tasks[p].index, Some(s.nodes[id].store))
           else s.nodes[id].tasks[p]
  {
  }

  lemma {:induction false} PendingTask<S(!new), O>(
    apply: (S, O) -> S, trace: seq<State<S, O>>, steps: seq<Step<S, O>>, i: nat, j: nat, id: nat, p: nat)
    requires IsRun(apply, trace, steps) && Pending(apply, trace, steps, i, j, id, p)
    ensures id in trace[j].nodes && p < |trace[j].nodes[id].tasks|
    ensures TaskIs(apply, trace, steps, i, j, id, trace[j].nodes[id].tasks[p])
    decreases j
  {
    if j == i + 1 {
      BegunNow(apply, trace, steps, i, id);
    } else {
      var q := Slot(steps, i, j - 1, id, |trace[i].nodes[id].tasks|).value;
      PendingTask(apply, trace, steps, i, j - 1, id, q);
      TaskMoves(apply, trace, steps, i, j, id, q, p);
    }
  }

  lemma TaskMoves<S(!new), O>(
    apply: (S, O) -> S, trace: seq<State<S, O>>, steps: seq<Step<S, O>>, i: nat, j: nat, id: nat, q: nat, p: nat)
    requires IsRun(apply, trace, steps) && i + 1 < j && Pending(apply, trace, steps, i, j - 1, id, q)
    requires Pending(apply, trace, steps, i, j, id, p)
    requires id in trace[j - 1].nodes && q < |trace[j - 1].nodes[id].tasks|
    requires TaskIs(apply, trace, steps, i, j - 1, id, trace[j - 1].nodes[id].tasks[q])
    ensures id in trace[j].nodes && p < |trace[j].nodes[id].tasks|
    ensures TaskIs(apply, trace, steps, i, j, id, trace[j].nodes[id].tasks[p])
  {
    var step, was := steps[j - 1], trace[j - 1].nodes[id].tasks[q];
    TasksAfter(apply, trace[j - 1], step, id, trace[j], q);
    var now := trace[j].nodes[id].tasks[p];
    if step == Read(id, q) {
      assert ReadFor(apply, trace, steps, i, j - 1, id, now.data.value);
    } else if now.data.Some? {
      var k: nat :| k < j - 1 && ReadFor(apply, trace, steps, i, k, id, was.data.value);
      assert k < j;
    }
  }

  /**
   In every run: a snapshot begun at step i and delivered at step j is served with the index that was
   applied at step i and with the store of the step in between at which it was read; and the log
   begins at that index unless it already began later.
   */
  lemma DeliveredIsWhatWasBegun<S(!new), O>(
    apply: (S, O) -> S, trace: seq<State<S, O>>, steps: seq<Step<S, O>>, i: nat, j: nat, id: nat)
    requires IsRun(apply, trace, steps) && j < |steps| && steps[j].Deliver? && steps[j].id == id
    requires Pending(apply, trace, steps, i, j, id, steps[j].task)
    ensures id in trace[j].nodes && id in trace[j + 1].nodes
    ensures
      var index, disk := trace[i].nodes[id].applied, trace[j + 1].nodes[id].disk;
      && disk.held.index == index
      && WasRead(apply, trace, steps, i, j, id, disk.held.data)
      && index <= disk.first
      && disk.first == if index <= trace[j].nodes[id].disk.first then trace[j].nodes[id].disk.first else index
  {
    PendingTask(apply, trace, steps, i, j, id, steps[j].task);
    assert trace[j + 1] == Next(apply, trace[j], steps[j]);
  }

  lemma NothingAtFirst<S(!new), O>(apply: (S, O) -> S, trace: seq<State<S, O>>, steps: seq<Step<S, O>>)
    requires IsRun(apply, trace, steps)
    ensures trace[0].sent == [] && forall id :: id in trace[0].nodes ==> trace[0].nodes[id].tasks == []
  {
  }

  /** Conversely every pending task was begun at some step. */
  lemma {:induction false} TaskWasBegun<S(!new), O>(
    apply: (S, O) -> S, trace: seq<State<S, O>>, steps: seq<Step<S, O>>, j: nat, id: nat, p: nat)
    returns (i: nat)
    requires IsRun(apply, trace, steps) && j < |trace| && id in trace[j].nodes && p < |trace[j].nodes[id].tasks|
    ensures Pending(apply, trace, steps, i, j, id, p)
    decreases j
  {
    NothingAtFirst(apply, trace, steps);
    var step := steps[j - 1];
    assert trace[j] == Next(apply, trace[j - 1], step);
    if step == Begin(id) && p == |trace[j - 1].nodes[id].tasks| {
      i := j - 1;
    } else {
      var q := if step.Deliver? && step.id == id && step.task <= p then p + 1 else p;
      assert id in trace[j - 1].nodes && q < |trace[j - 1].nodes[id].tasks|;
      i := TaskWasBegun(apply, trace, steps, j - 1, id, q);
      assert SlotAfter(step, id, q) == Some(p);
    }
  }

  // ---------------------------------------------------------------------------------------------
  // Whatever a node serves
  // ---------------------------------------------------------------------------------------------

  /** The step sends out the snapshot as the m-th message. */
  ghost predicate SentAs<S(!new), O>(
    apply: (S, O) -> S, trace: seq<State<S, O>>, steps: seq<Step<S, O>>, k: nat, m: nat, snap: Snapshot<S>)
    requires IsRun(apply, trace, steps)
  {
    && k < |steps| && steps[k].Send? && steps[k].id in trace[k].nodes
    && |trace[k].sent| == m && snap == trace[k].nodes[steps[k].id].disk.held
  }

  lemma {:induction false} SentWasHeld<S(!new), O>(
    apply: (S, O) -> S, trace: seq<State<S, O>>, steps: seq<Step<S, O>>, j: nat, m: nat) returns (k: nat)
    requires IsRun(apply, trace, steps) && j < |trace| && m < |trace[j].sent|
    ensures k < j && SentAs(apply, trace, steps, k, m, trace[j].sent[m])
  {
    NothingAtFirst(apply, trace, steps);
    assert trace[j] == Next(apply, trace[j - 1], steps[j - 1]);
    if m == |trace[j - 1].sent| {
      k := j - 1;
    } else {
      k := SentWasHeld(apply, trace, steps, j - 1, m);
    }
  }

  /** What the node serves because of step j, and since when its log can begin. */
  ghost predicate ServedAt<S(!new), O>(
    apply: (S, O) -> S, trace: seq<State<S, O>>, steps: seq<Step<S, O>>, j: nat, id: nat, snap: Snapshot<S>)
    requires IsRun(apply, trace, steps) && j < |steps|
  {
    id in trace[j].nodes &&
    match steps[j]
    case Deliver(_, t) =>
      exists i: nat ::
        && Pending(apply, trace, steps, i, j, id, t)
        && id in trace[i].nodes && snap.index == trace[i].nodes[id].applied
        && WasRead(apply, trace, steps, i, j, id, snap.data)
    case Inline(_) => snap == Snapshot(trace[j].nodes[id].applied, trace[j].nodes[id].store)
    case Receive(_, m) => exists k: nat :: k < j && SentAs(apply, trace, steps, k, m, snap)
    case _ => false
  }

  lemma ServesNow<S(!new), O>(
    apply: (S, O) -> S, trace: seq<State<S, O>>, steps: seq<Step<S, O>>, j: nat, id: nat)
    requires IsRun(apply, trace, steps) && j < |steps| && Serves(steps[j], id)
    ensures id in trace[j + 1].nodes && ServedAt(apply, trace, steps, j, id, trace[j + 1].nodes[id].disk.held)
  {
    assert trace[j + 1] == Next(apply, trace[j], steps[j]);
    match steps[j]
    case Deliver(_, t) =>
      var i := TaskWasBegun(apply, trace, steps, j, id, t);
      DeliveredIsWhatWasBegun(apply, trace, steps, i, j, id);
    case Inline(_) =>
    case Receive(_, m) =>
      var k := SentWasHeld(apply, trace, steps, j, m);
  }

  lemma {:induction false} HeldStays<S(!new), O>(
    apply: (S, O) -> S, trace: seq<State<S, O>>, steps: seq<Step<S, O>>, j: nat, i: nat, id: nat)
    requires IsRun(apply, trace, steps) && j <= i < |trace| && id in trace[j].nodes
    requires forall k {:trigger steps[k]} :: j <= k < i ==> !Serves(steps[k], id)
    ensures id in trace[i].nodes && trace[i].nodes[id].disk == trace[j].nodes[id].disk
    decreases i
  {
    if j < i {
      HeldStays(apply, trace, steps, j, i - 1, id);
      DiskStays(apply, trace[i - 1], steps[i - 1], trace[i], id);
    }
  }

  lemma DiskStays<S, O>(apply: (S, O) -> S, s: State<S, O>, step: Step<S, O>, t: State<S, O>, id: nat)
    requires Enabled(s, step) && t == Next(apply, s, step) && id in s.nodes && !Serves(step, id)
    ensures id in t.nodes && t.nodes[id].disk == s.nodes[id].disk
  {
  }

  /**
   In every run, what a node serves is what its last serving step gave it: a spawned snapshot with the
   index applied when it was begun and the store of when it was read; one made at once with the index
   and the store of that moment; or one received as some node served it when it was sent.
   */
  lemma HeldIsLastServed<S(!new), O>(
    apply: (S, O) -> S, trace: seq<State<S, O>>, steps: seq<Step<S, O>>, j: nat, i: nat, id: nat)
    requires IsRun(apply, trace, steps) && j < i < |trace| && Serves(steps[j], id)
    requires forall k {:trigger steps[k]} :: j < k < i ==> !Serves(steps[k], id)
    ensures id in trace[i].nodes && ServedAt(apply, trace, steps, j, id, trace[i].nodes[id].disk.held)
  {
    ServesNow(apply, trace, steps, j, id);
    HeldStays(apply, trace, steps, j + 1, i, id);
  }

  /**
   A restored node is exactly where the snapshot says: if it serves a snapshot at once, that is the one it
   received, and it keeps only entries after it unless its log was past it.
   */
  lemma RestoredServesTheSame<S, O>(apply: (S, O) -> S, s: State<S, O>, id: nat, m: nat)
    requires Enabled(s, Receive(id, m)) && s.sent[m].index >= 1
    ensures
      var t := Next(apply, s, Receive(id, m));
      && Enabled(t, Inline(id))
      && var u := Next(apply, t, Inline(id));
      && u.nodes[id].disk.held == s.sent[m] && u.nodes[id].store == s.sent[m].data
      && u.nodes[id].pos == s.sent[m].index && u.nodes[id].part == 0
      && u.nodes[id].disk.first
         == if s.nodes[id].disk.first > s.sent[m].index then s.nodes[id].disk.first else s.sent[m].index + 1
  {
  }

  // ---------------------------------------------------------------------------------------------
  // Every node can catch up
  // ---------------------------------------------------------------------------------------------

  /** The steps can be taken one after the other from this state. */
  ghost predicate Allowed<S, O>(apply: (S, O) -> S, s: State<S, O>, steps: seq<Step<S, O>>)
    decreases |steps|
  {
    steps == [] || (Enabled(s, steps[0]) && Allowed(apply, Next(apply, s, steps[0]), steps[1..]))
  }

  /** Where they lead. */
  ghost function EndOf<S, O>(apply: (S, O) -> S, s: State<S, O>, steps: seq<Step<S, O>>): (t: State<S, O>)
    requires Allowed(apply, s, steps)
    decreases |steps|
  {
    if steps == [] then s else EndOf(apply, Next(apply, s, steps[0]), steps[1..])
  }

  /** The run can go on from the one state to the other with these steps. */
  ghost predicate Leads<S, O>(apply: (S, O) -> S, s: State<S, O>, steps: seq<Step<S, O>>, t: State<S, O>) {
    Allowed(apply, s, steps) && EndOf(apply, s, steps) == t
  }

  lemma LeadsBy<S, O>(
    apply: (S, O) -> S, s: State<S, O>, step: Step<S, O>, u: State<S, O>, rest: seq<Step<S, O>>, t: State<S, O>)
    requires Enabled(s, step) && u == Next(apply, s, step) && Leads(apply, u, rest, t)
    ensures Leads(apply, s, [step] + rest, t)
  {
    assert ([step] + rest)[1..] == rest;
  }

  lemma {:induction false} LeadsReachably<S(!new), O(!new)>(
    apply: (S, O) -> S, s: State<S, O>, steps: seq<Step<S, O>>, t: State<S, O>)
    requires Reachable(apply, s) && Leads(apply, s, steps, t)
    ensures Reachable(apply, t)
    decreases |steps|
  {
    if steps != [] {
      ReachableNext(apply, s, steps[0]);
      LeadsReachably(apply, Next(apply, s, steps[0]), steps[1..], t);
    }
  }

  /** How many steps the node has before it: the operations and the ends of the entries. */
  function Ahead<O>(log: seq<Entry<O>>, pos: nat, part: nat): (n: nat)
    requires 1 <= pos <= |log| + 1 && part <= if pos <= |log| then |log[pos - 1]| else 0
    decreases |log| - pos
  {
    if pos > |log| then 0 else |log[pos - 1]| - part + 1 + Ahead(log, pos + 1, 0)
  }

  /** The next step of a node that applies its log. */
  function Forward<S, O>(s: State<S, O>, id: nat): (step: Step<S, O>)
    requires id in s.nodes && 1 <= s.nodes[id].pos <= |s.log| && Placed(s.log, s.nodes[id])
    ensures Enabled(s, step)
  {
    if s.nodes[id].part < |s.log[s.nodes[id].pos - 1]| then Handle(id) else Finish(id)
  }

  lemma ForwardMoves<S, O>(apply: (S, O) -> S, s: State<S, O>, id: nat, t: State<S, O>)
    requires id in s.nodes && 1 <= s.nodes[id].pos <= |s.log| && Placed(s.log, s.nodes[id])
    requires t == Next(apply, s, Forward(s, id))
    ensures t.log == s.log && t.initial == s.initial
    ensures id in t.nodes && 1 <= t.nodes[id].pos && Placed(t.log, t.nodes[id])
    ensures Ahead(s.log, s.nodes[id].pos, s.nodes[id].part) == Ahead(t.log, t.nodes[id].pos, t.nodes[id].part) + 1
  {
  }

  /** The steps bring the node to the end of an unchanged log. */
  ghost predicate CatchesUp<S, O>(
    apply: (S, O) -> S, s: State<S, O>, steps: seq<Step<S, O>>, t: State<S, O>, id: nat)
  {
    && Leads(apply, s, steps, t) && t.log == s.log && t.initial == s.initial
    && id in t.nodes && t.nodes[id].pos == |t.log| + 1
  }

  lemma CatchesUpBy<S, O>(
    apply: (S, O) -> S, s: State<S, O>, step: Step<S, O>, u: State<S, O>, rest: seq<Step<S, O>>, t: State<S, O>,
    id: nat)
    requires Enabled(s, step) && u == Next(apply, s, step) && CatchesUp(apply, u, rest, t, id)
    requires u.log == s.log && u.initial == s.initial
    ensures CatchesUp(apply, s, [step] + rest, t, id)
  {
    LeadsBy(apply, s, step, u, rest, t);
  }

  lemma {:induction false} AppliesTheRest<S, O>(apply: (S, O) -> S, s: State<S, O>, id: nat)
    returns (steps: seq<Step<S, O>>, t: State<S, O>)
    requires id in s.nodes && 1 <= s.nodes[id].pos && Placed(s.log, s.nodes[id])
    ensures CatchesUp(apply, s, steps, t, id)
    decreases Ahead(s.log, s.nodes[id].pos, s.nodes[id].part)
  {
    if s.nodes[id].pos == LastIndex(s) {
      steps, t := [], s;
    } else {
      var u := Next(apply, s, Forward(s, id));
      ForwardMoves(apply, s, id, u);
      var rest;
      rest, t := AppliesTheRest(apply, u, id);
      CatchesUpBy(apply, s, Forward(s, id), u, rest, t, id);
      steps := [Forward(s, id)] + rest;
    }
  }

  /** Some node has something to serve: the first leader never loses its place. */
  ghost predicate SomebodyServes<S, O>(s: State<S, O>) {
    exists id :: id in s.nodes && s.nodes[id].pos >= 1
  }

  lemma StillServes<S, O>(apply: (S, O) -> S, s: State<S, O>, step: Step<S, O>, t: State<S, O>)
    requires SomebodyServes(s) && Enabled(s, step) && t == Next(apply, s, step)
    ensures SomebodyServes(t)
  {
    var id :| id in s.nodes && s.nodes[id].pos >= 1;
    assert id in t.nodes && t.nodes[id].pos >= 1;
  }

  lemma {:induction false} SomebodyAlwaysServes<S(!new), O>(
    apply: (S, O) -> S, trace: seq<State<S, O>>, steps: seq<Step<S, O>>, i: nat)
    requires IsRun(apply, trace, steps) && i < |trace|
    ensures SomebodyServes(trace[i])
  {
    if i == 0 {
      var initial: S, leader: nat :| trace[0] == Start(initial, leader);
      assert leader in trace[0].nodes && trace[0].nodes[leader].pos >= 1;
    } else {
      SomebodyAlwaysServes(apply, trace, steps, i - 1);
      StillServes(apply, trace[i - 1], steps[i - 1], trace[i]);
    }
  }

  /** A node without a log gets the snapshot of one that has something to serve. */
  lemma GetsASnapshot<S, O>(apply: (S, O) -> S, s: State<S, O>, id: nat)
    returns (send: Step<S, O>, u: State<S, O>, receive: Step<S, O>, t: State<S, O>)
    requires Inv(apply, s) && SomebodyServes(s) && id in s.nodes && s.nodes[id].pos == 0
    ensures Enabled(s, send) && u == Next(apply, s, send) && Enabled(u, receive) && t == Next(apply, u, receive)
    ensures t.log == u.log == s.log && t.initial == u.initial == s.initial
    ensures id in t.nodes && 1 <= t.nodes[id].pos && Placed(t.log, t.nodes[id])
  {
    var from :| from in s.nodes && s.nodes[from].pos >= 1;
    assert NodeInv(apply, s, s.nodes[from]);
    send, receive := Send(from), Receive(id, |s.sent|);
    u := Next(apply, s, send);
    InvStep(apply, s, send);
    t := Next(apply, u, receive);
    assert NodeInv(apply, t, t.nodes[id]) by { InvStep(apply, u, receive); }
  }

  lemma CanCatchUp<S, O>(apply: (S, O) -> S, s: State<S, O>, id: nat)
    returns (steps: seq<Step<S, O>>, t: State<S, O>)
    requires Inv(apply, s) && SomebodyServes(s) && id in s.nodes
    ensures CatchesUp(apply, s, steps, t, id)
  {
    if s.nodes[id].pos == 0 {
      var send, u, receive, v := GetsASnapshot(apply, s, id);
      steps, t := AppliesTheRest(apply, v, id);
      CatchesUpBy(apply, u, receive, v, steps, t, id);
      CatchesUpBy(apply, s, send, u, [receive] + steps, t, id);
      steps := [send] + ([receive] + steps);
    } else {
      assert NodeInv(apply, s, s.nodes[id]);
      steps, t := AppliesTheRest(apply, s, id);
    }
  }

  /**
   From every reachable state every node, a new one without any log included, can get to the end of the
   log without anything more being committed; and with a store that forgives repeats it then holds
   what the whole log gives.
   */
  lemma EveryNodeCanCatchUp<S(!new), O(!new)>(apply: (S, O) -> S, s: State<S, O>, id: nat)
    returns (steps: seq<Step<S, O>>, t: State<S, O>)
    requires Reachable(apply, s) && id in s.nodes
    ensures CatchesUp(apply, s, steps, t, id)
    ensures RepeatsAreHarmless(apply) ==> t.nodes[id].store == Replay(apply, s.initial, Join(s.log))
  {
    assert SomebodyServes(s) by {
      var trace, run :| IsRun(apply, trace, run) && trace[|run|] == s;
      SomebodyAlwaysServes(apply, trace, run, |run|);
    }
    ReachableInv(apply, s);
    steps, t := CanCatchUp(apply, s, id);
    if RepeatsAreHarmless(apply) {
      LeadsReachably(apply, s, steps, t);
      ReplicasConverge(apply, t, id, id);
    }
  }
}
