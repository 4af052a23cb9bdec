/** What a node's snapshot and the log it retains are good for together. */
module Retention {
  import opened Basics
  import opened LogStorage
  import opened Selection
  import opened StoreLaw
  import opened Cluster

  // ---------------------------------------------------------------------------------------------
  // When there is no gap
  // ---------------------------------------------------------------------------------------------

  /** The step changes what this node serves. */
  predicate Serves<S, O>(step: Step<S, O>, id: nat) {
    (step.Deliver? || step.Inline? || step.Receive?) && step.id == id
  }

  /** The label of the snapshot it serves from then on. */
  function ServedLabel<S, O>(s: State<S, O>, step: Step<S, O>): (r: nat)
    requires Enabled(s, step) && (step.Deliver? || step.Inline? || step.Receive?)
  {
    match step
    case Deliver(id, t) => s.nodes[id].tasks[t].index
    case Inline(id) => s.nodes[id].applied
    case Receive(_, m) => s.sent[m].index
  }

  /** The first index the log may keep: an own snapshot keeps the entry at its label, a received one does not. */
  function Floor<S, O>(s: State<S, O>, step: Step<S, O>): (r: nat)
    requires Enabled(s, step) && (step.Deliver? || step.Inline? || step.Receive?)
  {
    if step.Receive? then ServedLabel(s, step) + 1 else ServedLabel(s, step)
  }

  lemma FirstStep<S, O>(apply: (S, O) -> S, s: State<S, O>, step: Step<S, O>, id: nat, bound: nat)
    requires Enabled(s, step) && id in s.nodes
    ensures id in Next(apply, s, step).nodes
    ensures Next(apply, s, step).nodes[id].disk.first <= bound
      <==> s.nodes[id].disk.first <= bound && (Serves(step, id) ==> Floor(s, step) <= bound)
  {
  }

  /** No snapshot the node served in the first n steps made its log start after `bound`. */
  ghost predicate FloorsWithin<S(!new), O>(
    apply: (S, O) -> S, trace: seq<State<S, O>>, steps: seq<Step<S, O>>, n: nat, id: nat, bound: nat)
    requires IsRun(apply, trace, steps) && n <= |steps|
  {
    forall j {:trigger steps[j]} :: 0 <= j < n && Serves(steps[j], id) ==> Floor(trace[j], steps[j]) <= bound
  }

  lemma FloorsWithinNext<S(!new), O>(
    apply: (S, O) -> S, trace: seq<State<S, O>>, steps: seq<Step<S, O>>, n: nat, id: nat, bound: nat)
    requires IsRun(apply, trace, steps) && n < |steps|
    ensures FloorsWithin(apply, trace, steps, n + 1, id, bound)
      <==>
      && FloorsWithin(apply, trace, steps, n, id, bound)
      && (Serves(steps[n], id) ==> Floor(trace[n], steps[n]) <= bound)
  {
  }

  lemma {:induction false} NotYetEntered<S(!new), O>(
    apply: (S, O) -> S, trace: seq<State<S, O>>, steps: seq<Step<S, O>>, j: nat, i: nat, id: nat)
    requires IsRun(apply, trace, steps) && j <= i < |trace| && id !in trace[i].nodes
    ensures id !in trace[j].nodes
    decreases i - j
  {
    if j < i {
      assert id !in trace[i - 1].nodes by {
        assert trace[i] == Next(apply, trace[i - 1], steps[i - 1]);
      }
      NotYetEntered(apply, trace, steps, j, i - 1, id);
    }
  }

  lemma EnteredNow<S(!new), O>(
    apply: (S, O) -> S, trace: seq<State<S, O>>, steps: seq<Step<S, O>>, i: nat, id: nat, bound: nat)
    requires IsRun(apply, trace, steps) && i < |steps| && id !in trace[i].nodes && id in trace[i + 1].nodes
    ensures trace[i + 1].nodes[id].disk.first == 1 && FloorsWithin(apply, trace, steps, i + 1, id, bound)
  {
    assert trace[i + 1] == Next(apply, trace[i], steps[i]);
    forall j {:trigger steps[j]} | 0 <= j < i + 1 ensures !Serves(steps[j], id) {
      NotYetEntered(apply, trace, steps, j, i, id);
    }
  }

  /** The first index of the log is the highest floor of all snapshots the node has served. */
  lemma {:induction false} FirstIsHighestFloor<S(!new), O>(
    apply: (S, O) -> S, trace: seq<State<S, O>>, steps: seq<Step<S, O>>, i: nat, id: nat, bound: nat)
    requires IsRun(apply, trace, steps) && i < |trace| && id in trace[i].nodes && bound >= 2
    ensures trace[i].nodes[id].disk.first <= bound <==> FloorsWithin(apply, trace, steps, i, id, bound)
  {
    if i > 0 {
      if id in trace[i - 1].nodes {
        FirstIsHighestFloor(apply, trace, steps, i - 1, id, bound);
        FloorsWithinNext(apply, trace, steps, i - 1, id, bound);
        FirstStep(apply, trace[i - 1], steps[i - 1], id, bound);
      } else {
        EnteredNow(apply, trace, steps, i - 1, id, bound);
      }
    }
  }

  /** A node without any log serves nothing and has not served anything. */
  lemma EmptyStep<S, O>(apply: (S, O) -> S, s: State<S, O>, step: Step<S, O>, id: nat)
    requires Enabled(s, step) && id in s.nodes && NodeInv(apply, s, s.nodes[id])
    requires Next(apply, s, step).nodes[id].pos == 0
    ensures s.nodes[id].pos == 0 && !Serves(step, id)
  {
  }

  lemma {:induction false} EmptyServesNothing<S(!new), O>(
    apply: (S, O) -> S, trace: seq<State<S, O>>, steps: seq<Step<S, O>>, j: nat, i: nat, id: nat)
    requires IsRun(apply, trace, steps) && j < i < |trace| && id in trace[i].nodes && trace[i].nodes[id].pos == 0
    ensures !Serves(steps[j], id)
    decreases i - j
  {
    if id in trace[i - 1].nodes {
      assert NodeInv(apply, trace[i - 1], trace[i - 1].nodes[id]) by { InvRun(apply, trace, steps, i - 1); }
      EmptyStep(apply, trace[i - 1], steps[i - 1], id);
      if j < i - 1 {
        EmptyServesNothing(apply, trace, steps, j, i - 1, id);
      }
    } else {
      NotYetEntered(apply, trace, steps, j, i - 1, id);
    }
  }

  /**
   In every run: a node's snapshot and log leave no gap if and only if no snapshot it has served
   before made the log forget an entry after the label it serves now.
   */
  lemma NoGapIff<S(!new), O>(
    apply: (S, O) -> S, trace: seq<State<S, O>>, steps: seq<Step<S, O>>, i: nat, id: nat)
    requires IsRun(apply, trace, steps) && i < |trace| && id in trace[i].nodes
    ensures NoGap(trace[i].nodes[id].disk)
      <==> FloorsWithin(apply, trace, steps, i, id, trace[i].nodes[id].disk.held.index + 1)
  {
    var n := trace[i].nodes[id];
    assert NodeInv(apply, trace[i], n) by { InvRun(apply, trace, steps, i); }
    if n.pos >= 1 {
      FirstIsHighestFloor(apply, trace, steps, i, id, n.disk.held.index + 1);
    } else {
      forall j {:trigger steps[j]} | 0 <= j < i ensures !Serves(steps[j], id) {
        EmptyServesNothing(apply, trace, steps, j, i, id);
      }
    }
  }

  // ---------------------------------------------------------------------------------------------
  // What a node serves rebuilds its own store
  // ---------------------------------------------------------------------------------------------

  ghost predicate ServesInOrder<S, O>(s: State<S, O>, step: Step<S, O>)
    requires Enabled(s, step)
  {
    step.Deliver? || step.Inline? ==> ServedLabel(s, step) >= s.nodes[step.id].disk.held.index
  }

  ghost predicate IsRunInOrder<S(!new), O>(apply: (S, O) -> S, trace: seq<State<S, O>>, steps: seq<Step<S, O>>) {
    && IsRun(apply, trace, steps)
    && forall j {:trigger steps[j]} :: 0 <= j < |steps| ==> ServesInOrder(trace[j], steps[j])
  }

  /** The operations between the two places, applied to the data, give the store. */
  ghost predicate Rebuilds<S, O>(apply: (S, O) -> S, ops: seq<O>, data: S, from: nat, store: S, place: nat) {
    from <= place <= |ops| && Replay(apply, data, ops[from..place]) == store
  }

  /** Replaying operations from any place since `from` changes nothing. */
  ghost predicate Stable<S, O>(apply: (S, O) -> S, ops: seq<O>, from: nat, store: S, place: nat) {
    forall p :: from <= p <= place ==> Rebuilds(apply, ops, store, p, store, place)
  }

  lemma RebuildsNext<S, O>(apply: (S, O) -> S, ops: seq<O>, data: S, from: nat, store: S, place: nat)
    requires Rebuilds(apply, ops, data, from, store, place) && place < |ops|
    ensures Rebuilds(apply, ops, data, from, apply(store, ops[place]), place + 1)
  {
    assert ops[from..place + 1] == ops[from..place] + [ops[place]];
    ReplayLast(apply, data, ops[from..place], ops[place]);
  }

  lemma RebuildsAfterCommit<S, O>(
    apply: (S, O) -> S, ops: seq<O>, more: seq<O>, data: S, from: nat, store: S, place: nat)
    requires Rebuilds(apply, ops, data, from, store, place)
    ensures Rebuilds(apply, ops + more, data, from, store, place)
  {
    assert (ops + more)[from..place] == ops[from..place];
  }

  /** A store that replaying a block leaves alone is still left alone with one more operation. */
  lemma StableNext<S(!new), O(!new)>(apply: (S, O) -> S, ops: seq<O>, from: nat, store: S, place: nat)
    requires RepeatsAreHarmless(apply) && Stable(apply, ops, from, store, place) && place < |ops|
    ensures Stable(apply, ops, from, apply(store, ops[place]), place + 1)
  {
    var next, end := apply(store, ops[place]), place + 1;
    forall p | from <= p <= end ensures Rebuilds(apply, ops, next, p, next, end) {
      if p <= place {
        RebuildsNext(apply, ops, store, p, store, place);
        var block := ops[p..end];
        assert Replay(apply, Replay(apply, store, block), block) == Replay(apply, store, block);
      } else {
        assert ops[p..end] == [];
      }
    }
  }

  lemma StableAfterCommit<S, O>(apply: (S, O) -> S, ops: seq<O>, more: seq<O>, from: nat, store: S, place: nat)
    requires Stable(apply, ops, from, store, place)
    ensures Stable(apply, ops + more, from, store, place)
  {
    forall p | from <= p <= place ensures Rebuilds(apply, ops + more, store, p, store, place) {
      RebuildsAfterCommit(apply, ops, more, store, p, store, place);
    }
  }

  /** What the node has read or holds, since the label it serves, rebuilds its store. */
  ghost predicate DataInv<S, O>(apply: (S, O) -> S, log: seq<Entry<O>>, data: S, index: nat, n: Node<S>) {
    && Placed(log, n) && 1 <= index <= n.pos
    && Rebuilds(apply, Join(log), data, Place(log, index), n.store, PlaceOf(log, n))
  }

  ghost predicate HeldInv<S, O>(apply: (S, O) -> S, log: seq<Entry<O>>, n: Node<S>) {
    && DataInv(apply, log, n.disk.held.data, n.disk.held.index, n)
    && Stable(apply, Join(log), Place(log, n.disk.held.index), n.store, PlaceOf(log, n))
  }

  ghost predicate ReadInv<S, O>(apply: (S, O) -> S, log: seq<Entry<O>>, n: Node<S>) {
    forall i :: 0 <= i < |n.tasks| && n.tasks[i].data.Some? && n.tasks[i].index >= n.disk.held.index ==>
      DataInv(apply, log, n.tasks[i].data.value, n.tasks[i].index, n)
  }

  ghost predicate OwnInv<S, O>(apply: (S, O) -> S, log: seq<Entry<O>>, n: Node<S>) {
    n.pos >= 1 ==> HeldInv(apply, log, n) && ReadInv(apply, log, n)
  }

  lemma DataAfterHandle<S, O>(apply: (S, O) -> S, log: seq<Entry<O>>, data: S, index: nat, n: Node<S>, m: Node<S>)
    requires DataInv(apply, log, data, index, n) && n.pos <= |log| && n.part < |log[n.pos - 1]|
    requires m.store == apply(n.store, log[n.pos - 1][n.part]) && m.pos == n.pos && m.part == n.part + 1
    ensures DataInv(apply, log, data, index, m)
  {
    NextOperation(log, n);
    RebuildsNext(apply, Join(log), data, Place(log, index), n.store, PlaceOf(log, n));
  }

  lemma OwnHandle<S(!new), O(!new)>(apply: (S, O) -> S, log: seq<Entry<O>>, n: Node<S>, m: Node<S>)
    requires RepeatsAreHarmless(apply) && OwnInv(apply, log, n) && 1 <= n.pos <= |log| && n.part < |log[n.pos - 1]|
    requires m == n.(store := apply(n.store, log[n.pos - 1][n.part]), part := n.part + 1)
    ensures OwnInv(apply, log, m)
  {
    DataAfterHandle(apply, log, n.disk.held.data, n.disk.held.index, n, m);
    assert Stable(apply, Join(log), Place(log, n.disk.held.index), m.store, PlaceOf(log, m)) by {
      NextOperation(log, n);
      StableNext(apply, Join(log), Place(log, n.disk.held.index), n.store, PlaceOf(log, n));
    }
    forall i | 0 <= i < |m.tasks| && m.tasks[i].data.Some? && m.tasks[i].index >= m.disk.held.index
      ensures DataInv(apply, log, m.tasks[i].data.value, m.tasks[i].index, m)
    {
      DataAfterHandle(apply, log, n.tasks[i].data.value, n.tasks[i].index, n, m);
    }
  }

  /** The place does not change when an entry is finished, nor do the data and the store. */
  lemma OwnStays<S, O>(apply: (S, O) -> S, log: seq<Entry<O>>, n: Node<S>, m: Node<S>)
    requires OwnInv(apply, log, n) && 1 <= n.pos <= m.pos && Placed(log, n) && Placed(log, m)
    requires PlaceOf(log, m) == PlaceOf(log, n) && m.store == n.store && m.disk == n.disk
    requires forall i :: 0 <= i < |m.tasks| ==> m.tasks[i].data.None? || m.tasks[i] in n.tasks
    ensures OwnInv(apply, log, m)
  {
    forall i | 0 <= i < |m.tasks| && m.tasks[i].data.Some? && m.tasks[i].index >= m.disk.held.index
      ensures DataInv(apply, log, m.tasks[i].data.value, m.tasks[i].index, m)
    {
      var j :| 0 <= j < |n.tasks| && n.tasks[j] == m.tasks[i];
      assert DataInv(apply, log, n.tasks[j].data.value, n.tasks[j].index, n);
    }
  }

  lemma DataAfterCommit<S, O>(
    apply: (S, O) -> S, log: seq<Entry<O>>, entry: Entry<O>, data: S, index: nat, n: Node<S>)
    requires DataInv(apply, log, data, index, n)
    ensures DataInv(apply, log + [entry], data, index, n)
  {
    JoinAfterCommit(log, entry);
    PlaceAfterCommit(log, entry, index);
    PlaceAfterCommit(log, entry, n.pos);
    RebuildsAfterCommit(apply, Join(log), entry, data, Place(log, index), n.store, PlaceOf(log, n));
  }

  lemma HeldAfterCommit<S, O>(apply: (S, O) -> S, log: seq<Entry<O>>, entry: Entry<O>, n: Node<S>)
    requires HeldInv(apply, log, n)
    ensures HeldInv(apply, log + [entry], n)
  {
    DataAfterCommit(apply, log, entry, n.disk.held.data, n.disk.held.index, n);
    JoinAfterCommit(log, entry);
    PlaceAfterCommit(log, entry, n.disk.held.index);
    PlaceAfterCommit(log, entry, n.pos);
    StableAfterCommit(apply, Join(log), entry, Place(log, n.disk.held.index), n.store, PlaceOf(log, n));
  }

  lemma OwnCommit<S, O>(apply: (S, O) -> S, log: seq<Entry<O>>, entry: Entry<O>, n: Node<S>)
    requires OwnInv(apply, log, n)
    ensures OwnInv(apply, log + [entry], n)
  {
    if n.pos >= 1 {
      HeldAfterCommit(apply, log, entry, n);
      forall i | 0 <= i < |n.tasks| && n.tasks[i].data.Some? && n.tasks[i].index >= n.disk.held.index
        ensures DataInv(apply, log + [entry], n.tasks[i].data.value, n.tasks[i].index, n)
      {
        DataAfterCommit(apply, log, entry, n.tasks[i].data.value, n.tasks[i].index, n);
      }
    }
  }

  /** The live store is data that rebuilds itself. */
  lemma StoreRebuilds<S, O>(apply: (S, O) -> S, log: seq<Entry<O>>, n: Node<S>, index: nat)
    requires HeldInv(apply, log, n) && n.disk.held.index <= index <= n.pos
    ensures DataInv(apply, log, n.store, index, n)
  {
    PlaceGrows(log, n.disk.held.index, index);
    PlaceGrows(log, index, n.pos);
  }

  lemma OwnRead<S, O>(apply: (S, O) -> S, log: seq<Entry<O>>, n: Node<S>, t: nat, m: Node<S>)
    requires OwnInv(apply, log, n) && t < |n.tasks| && 1 <= n.tasks[t].index <= n.pos
    requires m == n.(tasks := n.tasks[t := Task(n.tasks[t].index, Some(n.store))])
    ensures OwnInv(apply, log, m)
  {
    forall i | 0 <= i < |m.tasks| && m.tasks[i].data.Some? && m.tasks[i].index >= m.disk.held.index
      ensures DataInv(apply, log, m.tasks[i].data.value, m.tasks[i].index, m)
    {
      if i == t {
        StoreRebuilds(apply, log, n, n.tasks[t].index);
      } else {
        assert DataInv(apply, log, n.tasks[i].data.value, n.tasks[i].index, n);
      }
    }
  }

  /** Serving data that rebuilds the store, with a label not before the held one. */
  lemma OwnServes<S, O>(apply: (S, O) -> S, log: seq<Entry<O>>, n: Node<S>, snap: Snapshot<S>, m: Node<S>)
    requires OwnInv(apply, log, n) && n.pos >= 1
    requires n.disk.held.index <= snap.index && DataInv(apply, log, snap.data, snap.index, n)
    requires m == n.(disk := SetSnapshot(n.disk, snap), tasks := m.tasks)
    requires forall i :: 0 <= i < |m.tasks| ==> m.tasks[i] in n.tasks
    ensures OwnInv(apply, log, m)
  {
    PlaceGrows(log, n.disk.held.index, snap.index);
    forall i | 0 <= i < |m.tasks| && m.tasks[i].data.Some? && m.tasks[i].index >= m.disk.held.index
      ensures DataInv(apply, log, m.tasks[i].data.value, m.tasks[i].index, m)
    {
      var j :| 0 <= j < |n.tasks| && n.tasks[j] == m.tasks[i];
      assert DataInv(apply, log, n.tasks[j].data.value, n.tasks[j].index, n);
    }
  }

  /** A received snapshot starts afresh; tasks begun before it have earlier labels. */
  lemma OwnReceive<S, O>(apply: (S, O) -> S, log: seq<Entry<O>>, n: Node<S>, snap: Snapshot<S>, m: Node<S>)
    requires m == Restored(n, snap) && 1 <= snap.index <= |log| + 1
    requires forall i :: 0 <= i < |n.tasks| ==> n.tasks[i].index < snap.index
    ensures OwnInv(apply, log, m)
  {
    PlaceGrows(log, snap.index, snap.index);
    var ops, p := Join(log), Place(log, snap.index);
    assert ops[p..p] == [];
  }

  /** What a step of a node needs to know about it. */
  ghost predicate StepsInOrder<S, O>(apply: (S, O) -> S, s: State<S, O>, step: Step<S, O>, n: Node<S>, m: Node<S>) {
    && Enabled(s, step) && ServesInOrder(s, step)
    && !step.Commit? && !step.Enter? && !step.Send? && n == s.nodes[step.id] && m == NodeAfter(apply, s, step)
    && n.applied <= n.pos && Placed(s.log, n) && Placed(s.log, m)
    && (forall i :: 0 <= i < |n.tasks| ==> 1 <= n.tasks[i].index <= n.pos)
    && (step.Receive? ==> s.sent[step.message].index <= LastIndex(s))
  }

  lemma OwnMoves<S(!new), O(!new)>(apply: (S, O) -> S, s: State<S, O>, step: Step<S, O>, n: Node<S>, m: Node<S>)
    requires RepeatsAreHarmless(apply) && StepsInOrder(apply, s, step, n, m) && OwnInv(apply, s.log, n)
    requires step.Handle? || step.Finish?
    ensures OwnInv(apply, s.log, m)
  {
    if step.Handle? {
      OwnHandle(apply, s.log, n, m);
    } else {
      OwnStays(apply, s.log, n, m);
    }
  }

  lemma OwnTasks<S, O>(apply: (S, O) -> S, s: State<S, O>, step: Step<S, O>, n: Node<S>, m: Node<S>)
    requires StepsInOrder(apply, s, step, n, m) && OwnInv(apply, s.log, n)
    requires step.Advance? || step.Begin? || step.Read?
    ensures OwnInv(apply, s.log, m)
  {
    if step.Read? {
      OwnRead(apply, s.log, n, step.task, m);
    } else if n.pos >= 1 {
      OwnStays(apply, s.log, n, m);
    }
  }

  lemma OwnDelivers<S, O>(apply: (S, O) -> S, s: State<S, O>, step: Step<S, O>, n: Node<S>, m: Node<S>)
    requires StepsInOrder(apply, s, step, n, m) && OwnInv(apply, s.log, n) && step.Deliver?
    ensures OwnInv(apply, s.log, m)
  {
    OwnServes(apply, s.log, n, Snapshot(n.tasks[step.task].index, n.tasks[step.task].data.value), m);
  }

  lemma OwnInlines<S, O>(apply: (S, O) -> S, s: State<S, O>, step: Step<S, O>, n: Node<S>, m: Node<S>)
    requires StepsInOrder(apply, s, step, n, m) && OwnInv(apply, s.log, n) && step.Inline?
    ensures OwnInv(apply, s.log, m)
  {
    StoreRebuilds(apply, s.log, n, n.applied);
    OwnServes(apply, s.log, n, Snapshot(n.applied, n.store), m);
  }

  lemma OwnStepHere<S(!new), O(!new)>(apply: (S, O) -> S, s: State<S, O>, step: Step<S, O>, n: Node<S>, m: Node<S>)
    requires RepeatsAreHarmless(apply) && StepsInOrder(apply, s, step, n, m) && OwnInv(apply, s.log, n)
    ensures OwnInv(apply, s.log, m)
  {
    if step.Handle? || step.Finish? {
      OwnMoves(apply, s, step, n, m);
    } else if step.Deliver? {
      OwnDelivers(apply, s, step, n, m);
    } else if step.Inline? {
      OwnInlines(apply, s, step, n, m);
    } else if step.Receive? {
      OwnReceive(apply, s.log, n, s.sent[step.message], m);
    } else {
      OwnTasks(apply, s, step, n, m);
    }
  }

  lemma OtherNodesStay<S, O>(apply: (S, O) -> S, s: State<S, O>, step: Step<S, O>, id: nat)
    requires Enabled(s, step) && id in Next(apply, s, step).nodes
    requires step.Commit? || step.Send? || step.id != id
    ensures id in s.nodes && Next(apply, s, step).nodes[id] == s.nodes[id]
    ensures Next(apply, s, step).log == if step.Commit? then s.log + [step.entry] else s.log
  {
  }

  lemma OwnNodeStep<S(!new), O(!new)>(
    apply: (S, O) -> S, s: State<S, O>, step: Step<S, O>, n: Node<S>, t: State<S, O>, m: Node<S>)
    requires RepeatsAreHarmless(apply) && Inv(apply, s) && Enabled(s, step) && ServesInOrder(s, step)
    requires !step.Commit? && !step.Enter? && !step.Send? && n == s.nodes[step.id] && m == NodeAfter(apply, s, step)
    requires NodeInv(apply, s, n) && NodeInv(apply, t, m) && OwnInv(apply, s.log, n)
    requires t.log == s.log && t.initial == s.initial
    ensures OwnInv(apply, s.log, m)
  {
    forall i | 0 <= i < |n.tasks| ensures 1 <= n.tasks[i].index <= n.pos {
      assert TaskInv(apply, s, n, n.tasks[i]);
    }
    if step.Receive? {
      assert Good(apply, s, s.sent[step.message].data, s.sent[step.message].index);
    }
    OwnStepHere(apply, s, step, n, m);
  }

  lemma OwnStep<S(!new), O(!new)>(apply: (S, O) -> S, s: State<S, O>, step: Step<S, O>, id: nat, t: State<S, O>)
    requires RepeatsAreHarmless(apply) && Inv(apply, s) && Inv(apply, t)
    requires Enabled(s, step) && ServesInOrder(s, step) && t == Next(apply, s, step)
    requires id in t.nodes && (id in s.nodes ==> OwnInv(apply, s.log, s.nodes[id]))
    ensures OwnInv(apply, t.log, t.nodes[id])
  {
    if step.Commit? || step.Send? || step.id != id {
      OtherNodesStay(apply, s, step, id);
      if step.Commit? {
        OwnCommit(apply, s.log, step.entry, s.nodes[id]);
      }
    } else if !step.Enter? {
      assert NodeInv(apply, s, s.nodes[id]) && NodeInv(apply, t, t.nodes[id]);
      OwnNodeStep(apply, s, step, s.nodes[id], t, t.nodes[id]);
    }
  }

  lemma OwnStart<S, O>(apply: (S, O) -> S, initial: S, leader: nat)
    ensures
      var s: State<S, O> := Start(initial, leader);
      OwnInv(apply, s.log, s.nodes[leader])
  {
    var s: State<S, O> := Start(initial, leader);
    var n := s.nodes[leader];
    assert Join(s.log) == [] && Place(s.log, 1) == 0 && PlaceOf(s.log, n) == 0;
    assert Rebuilds(apply, Join(s.log), initial, 0, initial, 0);
  }

  lemma {:induction false} OwnRun<S(!new), O(!new)>(
    apply: (S, O) -> S, trace: seq<State<S, O>>, steps: seq<Step<S, O>>, i: nat, id: nat)
    requires RepeatsAreHarmless(apply) && IsRunInOrder(apply, trace, steps) && i < |trace| && id in trace[i].nodes
    ensures OwnInv(apply, trace[i].log, trace[i].nodes[id])
  {
    if i == 0 {
      var initial: S, leader: nat :| trace[0] == Start(initial, leader);
      OwnStart(apply, initial, leader);
    } else {
      if id in trace[i - 1].nodes {
        OwnRun(apply, trace, steps, i - 1, id);
      }
      InvRun(apply, trace, steps, i - 1);
      InvRun(apply, trace, steps, i);
      OwnStep(apply, trace[i - 1], steps[i - 1], id, trace[i]);
    }
  }

  lemma NoGapStep<S, O>(apply: (S, O) -> S, s: State<S, O>, step: Step<S, O>, id: nat)
    requires Enabled(s, step) && ServesInOrder(s, step) && id in Next(apply, s, step).nodes
    requires id in s.nodes ==> NodeInv(apply, s, s.nodes[id]) && NoGap(s.nodes[id].disk)
    ensures NoGap(Next(apply, s, step).nodes[id].disk)
  {
    if step.Commit? || step.Send? || step.id != id {
      OtherNodesStay(apply, s, step, id);
    }
  }

  lemma {:induction false} NoGapRun<S(!new), O>(
    apply: (S, O) -> S, trace: seq<State<S, O>>, steps: seq<Step<S, O>>, i: nat, id: nat)
    requires IsRunInOrder(apply, trace, steps) && i < |trace| && id in trace[i].nodes
    ensures NoGap(trace[i].nodes[id].disk)
  {
    if i > 0 {
      if id in trace[i - 1].nodes {
        NoGapRun(apply, trace, steps, i - 1, id);
        assert NodeInv(apply, trace[i - 1], trace[i - 1].nodes[id]) by { InvRun(apply, trace, steps, i - 1); }
      }
      NoGapStep(apply, trace[i - 1], steps[i - 1], id);
    }
  }

  /** The operations of the next entry that the node has applied already. */
  function Begun<S, O>(log: seq<Entry<O>>, n: Node<S>): (ops: seq<O>)
    requires Placed(log, n)
  {
    if n.part == 0 then [] else log[n.pos - 1][..n.part]
  }

  ghost predicate Retains<S, O>(log: seq<Entry<O>>, n: Node<S>) {
    Placed(log, n) && 2 <= n.disk.first <= n.disk.held.index + 1 <= n.pos + 1
  }

  /** Of the entries the node retains itself, those after the snapshot it serves. */
  function AfterHeld<S, O>(log: seq<Entry<O>>, n: Node<S>): (entries: seq<Entry<O>>)
    requires Retains(log, n)
  {
    var retained := log[n.disk.first - 2..n.pos - 1];
    retained[n.disk.held.index + 1 - n.disk.first..]
  }

  lemma AfterHeldIs<S, O>(log: seq<Entry<O>>, n: Node<S>)
    requires Retains(log, n)
    ensures AfterHeld(log, n) == log[n.disk.held.index - 1..n.pos - 1]
    ensures AfterHeld(log, n) + log[n.pos - 1..] == log[n.disk.held.index - 1..]
  {
    RestOfSlice(log, n.disk.first - 2, n.pos - 1, n.disk.held.index + 1 - n.disk.first);
    SplitAt(log, n.disk.held.index - 1, n.pos - 1);
  }

  lemma RestOfSlice<T>(s: seq<T>, a: nat, b: nat, k: nat)
    requires a + k <= b <= |s|
    ensures s[a..b][k..] == s[a + k..b]
  {
  }

  lemma SplitAt<T>(s: seq<T>, a: nat, b: nat)
    requires a <= b <= |s|
    ensures s[a..b] + s[b..] == s[a..]
  {
  }

  /** The snapshot and the retained entries after it rebuild the node's own store. */
  ghost predicate RebuildsOwn<S, O>(apply: (S, O) -> S, log: seq<Entry<O>>, n: Node<S>) {
    && Retains(log, n)
    && Replay(apply, n.disk.held.data, Join(AfterHeld(log, n)) + Begun(log, n)) == n.store
  }

  /** Together with the entries the cluster has beyond that, they rebuild the full store. */
  ghost predicate RebuildsAll<S, O>(apply: (S, O) -> S, s: State<S, O>, n: Node<S>) {
    && Retains(s.log, n)
    && Replay(apply, n.disk.held.data, Join(AfterHeld(s.log, n) + s.log[n.pos - 1..]))
       == Replay(apply, s.initial, Join(s.log))
  }

  lemma SliceOfSlice<T>(s: seq<T>, a: nat, b: nat, k: nat)
    requires a + k <= b <= |s|
    ensures s[a..b][..k] == s[a..a + k]
  {
  }

  lemma BegunSlice<S, O>(log: seq<Entry<O>>, n: Node<S>)
    requires Placed(log, n) && n.pos >= 1
    ensures PlaceOf(log, n) <= |Join(log)|
    ensures Join(log)[Place(log, n.pos)..PlaceOf(log, n)] == Begun(log, n)
  {
    PlaceOfBound(log, n);
    if n.part > 0 {
      BlockSlice(log, n.pos - 1);
      SliceOfSlice(Join(log), Place(log, n.pos), Place(log, n.pos + 1), n.part);
    }
  }

  /** What lies between a label and the node's place: the entries between, and what is begun. */
  lemma BetweenPlaces<S, O>(log: seq<Entry<O>>, n: Node<S>, index: nat)
    requires Placed(log, n) && 1 <= index <= n.pos
    ensures Place(log, index) <= PlaceOf(log, n) <= |Join(log)|
    ensures Join(log)[Place(log, index)..PlaceOf(log, n)] == Join(log[index - 1..n.pos - 1]) + Begun(log, n)
  {
    PlaceGrows(log, index, n.pos);
    BegunSlice(log, n);
    JoinSlice(log, index - 1, n.pos - 1);
    SliceConcat(Join(log), Place(log, index), Place(log, n.pos), PlaceOf(log, n));
  }

  lemma {:induction false} CoversOwn<S, O>(apply: (S, O) -> S, log: seq<Entry<O>>, n: Node<S>)
    requires Retains(log, n) && DataInv(apply, log, n.disk.held.data, n.disk.held.index, n)
    ensures RebuildsOwn(apply, log, n)
  {
    BetweenPlaces(log, n, n.disk.held.index);
    AfterHeldIs(log, n);
  }

  lemma {:induction false} CoversAll<S, O>(apply: (S, O) -> S, s: State<S, O>, n: Node<S>)
    requires Retains(s.log, n) && Sound(apply, s.initial, s.log, n.disk.held.data, n.disk.held.index)
    ensures RebuildsAll(apply, s, n)
  {
    AfterHeldIs(s.log, n);
  }

  /**
   In a run where every node serves its snapshots in the order of their labels, what a node serves is
   enough.
   */
  lemma SnapshotAndLogCoverEverything<S(!new), O(!new)>(
    apply: (S, O) -> S, trace: seq<State<S, O>>, steps: seq<Step<S, O>>, i: nat, id: nat)
    requires RepeatsAreHarmless(apply) && IsRunInOrder(apply, trace, steps) && i < |trace|
    requires id in trace[i].nodes && trace[i].nodes[id].disk.held.index >= 1
    ensures RebuildsOwn(apply, trace[i].log, trace[i].nodes[id]) && RebuildsAll(apply, trace[i], trace[i].nodes[id])
  {
    var s, n := trace[i], trace[i].nodes[id];
    assert StoreInv(apply, s, n) && DiskInv(apply, s, n.pos, n.disk) by {
      InvRun(apply, trace, steps, i);
      assert NodeInv(apply, s, n);
    }
    assert NoGap(n.disk) by { NoGapRun(apply, trace, steps, i, id); }
    assert DataInv(apply, s.log, n.disk.held.data, n.disk.held.index, n) by { OwnRun(apply, trace, steps, i, id); }
    CoversOwn(apply, s.log, n);
    TracedIsSound(apply, s.initial, s.log, n.disk.held.data, n.disk.held.index);
    CoversAll(apply, s, n);
  }

  // ---------------------------------------------------------------------------------------------
  // The order is needed
  // ---------------------------------------------------------------------------------------------

  /**
   Whenever a spawned snapshot is still to be read and its label has fallen two or more behind, serving a
   snapshot at once and then the late one leaves a gap: the late one takes over although the log it
   needs is gone.
   */
  lemma LateSnapshotLeavesGap<S, O>(apply: (S, O) -> S, s: State<S, O>, id: nat, t: nat)
    requires id in s.nodes && t < |s.nodes[id].tasks|
    requires s.nodes[id].tasks[t].data.None? && s.nodes[id].tasks[t].index + 1 < s.nodes[id].applied
    ensures Enabled(s, Inline(id))
    ensures
      var s1 := Next(apply, s, Inline(id));
      && Enabled(s1, Read(id, t))
      && var s2 := Next(apply, s1, Read(id, t));
      && Enabled(s2, Deliver(id, t))
      && !NoGap(Next(apply, s2, Deliver(id, t)).nodes[id].disk)
  {
  }

  /** A leader that has not applied its log of blank entries, or only the first of them. */
  ghost predicate Behind<S, O>(s: State<S, O>, entries: nat, pos: nat, tasks: seq<Task<S>>) {
    && |s.log| == entries && (forall i :: 0 <= i < entries ==> s.log[i] == [])
    && 1 in s.nodes && s.nodes[1].pos == pos && s.nodes[1].part == 0 && s.nodes[1].applied == 1
    && s.nodes[1].tasks == tasks
  }

  lemma BlankCommitted<S(!new), O(!new)>(
    apply: (S, O) -> S, s: State<S, O>, entries: nat, pos: nat, tasks: seq<Task<S>>)
    returns (t: State<S, O>)
    requires Reachable(apply, s) && Behind(s, entries, pos, tasks)
    ensures Reachable(apply, t) && Behind(t, entries + 1, pos, tasks)
  {
    ReachableNext(apply, s, Commit([]));
    t := Next(apply, s, Commit([]));
  }

  lemma BlankFinished<S(!new), O(!new)>(
    apply: (S, O) -> S, s: State<S, O>, entries: nat, pos: nat, tasks: seq<Task<S>>)
    returns (t: State<S, O>)
    requires Reachable(apply, s) && Behind(s, entries, pos, tasks) && 1 <= pos <= entries
    ensures Reachable(apply, t) && Behind(t, entries, pos + 1, tasks)
  {
    ReachableNext(apply, s, Finish(1));
    t := Next(apply, s, Finish(1));
  }

  /** A run gets there: two entries commit while the first snapshot of the leader is still to be read. */
  lemma LateSnapshotIsReachable<S(!new), O(!new)>(apply: (S, O) -> S, initial: S) returns (s: State<S, O>)
    ensures Reachable(apply, s) && 1 in s.nodes && |s.nodes[1].tasks| == 1
    ensures s.nodes[1].tasks[0].data.None? && s.nodes[1].tasks[0].index + 1 < s.nodes[1].applied
  {
    ReachableStart<S, O>(apply, initial, 1);
    ReachableNext(apply, Start<S, O>(initial, 1), Begin(1));
    s := Next(apply, Start<S, O>(initial, 1), Begin(1));
    var late := [Task(1, None)];
    assert Behind(s, 0, 1, late);
    s := BlankCommitted(apply, s, 0, 1, late);
    s := BlankCommitted(apply, s, 1, 1, late);
    s := BlankFinished(apply, s, 2, 1, late);
    s := BlankFinished(apply, s, 2, 2, late);
    ReachableNext(apply, s, Advance(1, 3));
    s := Next(apply, s, Advance(1, 3));
  }
}
