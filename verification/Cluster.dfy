/**
 Snapshots across a cluster. Nodes apply one committed log to a store; each labels its snapshots with
 the index up to which the consensus library was told the log is applied, while the data is read from
 the live store later, possibly by a spawned task and then possibly in the middle of an entry. The
 store is any type with any `apply`. Indices start at 1: the first leader labels its initial store with
 index 1, and the entry with index i is log[i - 2].
 */
module Cluster {
  import opened Basics
  import opened LogStorage
  import opened Selection
  import opened StoreLaw

  /** The operations of one committed entry in the order they are applied; none for a blank entry. */
  type Entry<O> = seq<O>

  /** A snapshot under way: its label is fixed, its data not yet read or already read. */
  datatype Task<+S> = Task(index: nat, data: Option<S>)

  /**
   `pos` is the index of the last entry applied to the store, `part` how many operations of the next
   one are applied as well, `applied` what the library was told.
   */
  datatype Node<+S> = Node(store: S, pos: nat, part: nat, applied: nat, disk: Disk<S>, tasks: seq<Task<S>>)

  datatype State<S, O> = State(initial: S, log: seq<Entry<O>>, nodes: map<nat, Node<S>>, sent: seq<Snapshot<S>>)

  datatype Step<+S, +O> =
    | Commit(entry: seq<O>)          // the cluster commits an entry
    | Enter(id: nat, store: S)       // a node starts with no log and no snapshot
    | Handle(id: nat)                // a node applies the next operation of its next entry
    | Finish(id: nat)                // the entry is applied entirely
    | Advance(id: nat, applied: nat) // the library learns how far the node has applied
    | Begin(id: nat)                 // a snapshot is labelled and its task spawned
    | Read(id: nat, task: nat)       // the spawned task reads the store
    | Deliver(id: nat, task: nat)    // the finished snapshot reaches the loop
    | Inline(id: nat)                // a snapshot labelled, read and served at once
    | Send(id: nat)                  // the served snapshot goes out to a follower
    | Receive(id: nat, message: nat) // a follower restores a snapshot ahead of its log

  function LastIndex<S, O>(s: State<S, O>): (i: nat) {
    |s.log| + 1
  }

  /**
   In the code only `Read` can fall between two operations of an entry. The other steps are allowed
   there too, so the theorems cover more runs than there are.
   */
  predicate Enabled<S, O>(s: State<S, O>, step: Step<S, O>) {
    match step
    case Commit(_) => true
    case Enter(id, _) => id !in s.nodes
    case Handle(id) =>
      id in s.nodes && 1 <= s.nodes[id].pos < LastIndex(s) && s.nodes[id].part < |s.log[s.nodes[id].pos - 1]|
    case Finish(id) =>
      id in s.nodes && 1 <= s.nodes[id].pos < LastIndex(s) && s.nodes[id].part == |s.log[s.nodes[id].pos - 1]|
    case Advance(id, applied) => id in s.nodes && s.nodes[id].applied <= applied <= s.nodes[id].pos
    case Begin(id) => id in s.nodes && 1 <= s.nodes[id].applied
    case Read(id, t) => id in s.nodes && t < |s.nodes[id].tasks| && s.nodes[id].tasks[t].data.None?
    case Deliver(id, t) => id in s.nodes && t < |s.nodes[id].tasks| && s.nodes[id].tasks[t].data.Some?
    case Inline(id) => id in s.nodes && 1 <= s.nodes[id].applied
    case Send(id) => id in s.nodes && 1 <= s.nodes[id].disk.held.index
    case Receive(id, m) => id in s.nodes && m < |s.sent| && s.nodes[id].pos < s.sent[m].index
  }

  function With<S, O>(s: State<S, O>, id: nat, n: Node<S>): (r: State<S, O>) {
    s.(nodes := s.nodes[id := n])
  }

  function Restored<S>(n: Node<S>, snap: Snapshot<S>): (r: Node<S>) {
    n.(store := snap.data, pos := snap.index, part := 0, applied := snap.index, disk := ApplySnapshot(n.disk, snap))
  }

  /** What a step of a node makes of that node. A held snapshot with index 0 stands for none. */
  function NodeAfter<S, O>(apply: (S, O) -> S, s: State<S, O>, step: Step<S, O>): (n: Node<S>)
    requires Enabled(s, step) && !step.Commit? && !step.Send?
  {
    match step
    case Enter(_, store) => Node(store, 0, 0, 0, Disk(Snapshot(0, store), 1), [])
    case Handle(id) =>
      var n := s.nodes[id];
      n.(store := apply(n.store, s.log[n.pos - 1][n.part]), part := n.part + 1)
    case Finish(id) => s.nodes[id].(pos := s.nodes[id].pos + 1, part := 0)
    case Advance(id, applied) => s.nodes[id].(applied := applied)
    case Begin(id) => s.nodes[id].(tasks := s.nodes[id].tasks + [Task(s.nodes[id].applied, None)])
    case Read(id, t) =>
      var n := s.nodes[id];
      n.(tasks := n.tasks[t := Task(n.tasks[t].index, Some(n.store))])
    case Deliver(id, t) =>
      var n := s.nodes[id];
      var snap := Snapshot(n.tasks[t].index, n.tasks[t].data.value);
      n.(disk := SetSnapshot(n.disk, snap), tasks := n.tasks[..t] + n.tasks[t + 1..])
    case Inline(id) =>
      var n := s.nodes[id];
      n.(disk := SetSnapshot(n.disk, Snapshot(n.applied, n.store)))
    case Receive(id, m) => Restored(s.nodes[id], s.sent[m])
  }

  function Next<S, O>(apply: (S, O) -> S, s: State<S, O>, step: Step<S, O>): (r: State<S, O>)
    requires Enabled(s, step)
  {
    if step.Commit? then s.(log := s.log + [step.entry])
    else if step.Send? then s.(sent := s.sent + [s.nodes[step.id].disk.held])
    else With(s, step.id, NodeAfter(apply, s, step))
  }

  /** The first leader labels its initial store with index 1. */
  function Start<S, O>(initial: S, leader: nat): (s: State<S, O>) {
    State(initial, [], map[leader := Node(initial, 1, 0, 1, Disk(Snapshot(1, initial), 2), [])], [])
  }

  ghost predicate IsRun<S(!new), O>(apply: (S, O) -> S, trace: seq<State<S, O>>, steps: seq<Step<S, O>>) {
    && |trace| == |steps| + 1
    && (exists initial: S, leader: nat :: trace[0] == Start(initial, leader))
    && forall i {:trigger steps[i]} :: 0 <= i < |steps| ==>
      Enabled(trace[i], steps[i]) && trace[i + 1] == Next(apply, trace[i], steps[i])
  }

  // ---------------------------------------------------------------------------------------------
  // Places in the log, counted in operations
  // ---------------------------------------------------------------------------------------------

  /** How many operations there are up to and including the entry with this index. */
  function Place<O>(log: seq<Entry<O>>, index: nat): (p: nat)
    requires 1 <= index <= |log| + 1
  {
    |JoinTo(log, index - 1)|
  }

  lemma PlaceGrows<O>(log: seq<Entry<O>>, a: nat, b: nat)
    requires 1 <= a <= b <= |log| + 1
    ensures Place(log, a) <= Place(log, b) <= |Join(log)|
  {
    JoinPrefix(log, a - 1, b - 1);
    JoinPrefix(log, b - 1, |log|);
  }

  lemma PlaceAfterCommit<O>(log: seq<Entry<O>>, entry: Entry<O>, index: nat)
    requires 1 <= index <= |log| + 1
    ensures Place(log + [entry], index) == Place(log, index)
  {
    JoinFrame(log + [entry], log, index - 1);
  }

  lemma JoinAfterCommit<O>(log: seq<Entry<O>>, entry: Entry<O>)
    ensures Join(log + [entry]) == Join(log) + entry
  {
    JoinFrame(log + [entry], log, |log|);
  }

  /** The node's place is within the log. */
  predicate Placed<S, O>(log: seq<Entry<O>>, n: Node<S>) {
    n.pos <= |log| + 1 && n.part <= if 1 <= n.pos <= |log| then |log[n.pos - 1]| else 0
  }

  /** How many operations the node has behind it. */
  function PlaceOf<S, O>(log: seq<Entry<O>>, n: Node<S>): (p: nat)
    requires Placed(log, n) && n.pos >= 1
  {
    Place(log, n.pos) + n.part
  }

  lemma PlaceOfBound<S, O>(log: seq<Entry<O>>, n: Node<S>)
    requires Placed(log, n) && n.pos >= 1
    ensures PlaceOf(log, n) <= |Join(log)|
  {
    PlaceGrows(log, n.pos, n.pos);
    if n.pos <= |log| {
      PlaceGrows(log, n.pos + 1, n.pos + 1);
    }
  }

  /** The next operation of the next entry is the one at the node's place. */
  lemma NextOperation<S, O>(log: seq<Entry<O>>, n: Node<S>)
    requires 1 <= n.pos <= |log| && n.part < |log[n.pos - 1]|
    ensures PlaceOf(log, n) < |Join(log)| && Join(log)[PlaceOf(log, n)] == log[n.pos - 1][n.part]
  {
    JoinAt(log, n.pos - 1, |log|, n.part);
  }

  // ---------------------------------------------------------------------------------------------
  // Every store is a reading of the log
  // ---------------------------------------------------------------------------------------------

  /** The data comes from a reading of the operations that skipped nothing and got at least to the place. */
  ghost predicate Traced<S, O>(apply: (S, O) -> S, initial: S, ops: seq<O>, data: S, place: nat) {
    exists v :: Reads(v, |ops|, place) && data == Replay(apply, initial, Pick(ops, v))
  }

  lemma TracedEarlier<S, O>(apply: (S, O) -> S, initial: S, ops: seq<O>, data: S, place: nat, earlier: nat)
    requires Traced(apply, initial, ops, data, place) && earlier <= place
    ensures Traced(apply, initial, ops, data, earlier)
  {
    var v: seq<nat> :| Reads(v, |ops|, place) && data == Replay(apply, initial, Pick(ops, v));
    assert Reads(v, |ops|, earlier);
  }

  lemma TracedAfterCommit<S, O>(apply: (S, O) -> S, initial: S, ops: seq<O>, data: S, place: nat, more: seq<O>)
    requires Traced(apply, initial, ops, data, place)
    ensures Traced(apply, initial, ops + more, data, place)
  {
    var v: seq<nat> :| Reads(v, |ops|, place) && data == Replay(apply, initial, Pick(ops, v));
    assert Reads(v, |ops + more|, place);
    assert Pick(ops + more, v) == Pick(ops, v);
  }

  lemma TracedAfterHandle<S, O>(apply: (S, O) -> S, initial: S, ops: seq<O>, data: S, place: nat)
    requires Traced(apply, initial, ops, data, place) && place < |ops|
    ensures Traced(apply, initial, ops, apply(data, ops[place]), place + 1)
  {
    var v: seq<nat> :| Reads(v, |ops|, place) && data == Replay(apply, initial, Pick(ops, v));
    var v': seq<nat> := v + [place];
    assert Reads(v', |ops|, place + 1);
    assert Pick(ops, v') == Pick(ops, v) + [ops[place]];
    ReplayLast(apply, initial, Pick(ops, v), ops[place]);
  }

  /** Applying the operations after the entry with this index to the data gives what the whole log gives. */
  ghost predicate Sound<S, O>(apply: (S, O) -> S, initial: S, log: seq<Entry<O>>, data: S, index: nat) {
    && 1 <= index <= |log| + 1
    && Replay(apply, data, Join(log[index - 1..])) == Replay(apply, initial, Join(log))
  }

  lemma AfterPlace<O>(log: seq<Entry<O>>, index: nat)
    requires 1 <= index <= |log| + 1
    ensures Place(log, index) <= |Join(log)| && Join(log)[Place(log, index)..] == Join(log[index - 1..])
  {
    JoinSlice(log, index - 1, |log|);
    assert log[index - 1..|log|] == log[index - 1..];
  }

  lemma TracedIsSound<S(!new), O(!new)>(apply: (S, O) -> S, initial: S, log: seq<Entry<O>>, data: S, index: nat)
    requires RepeatsAreHarmless(apply) && 1 <= index <= |log| + 1
    requires Traced(apply, initial, Join(log), data, Place(log, index))
    ensures Sound(apply, initial, log, data, index)
  {
    var ops, place := Join(log), Place(log, index);
    var v: seq<nat> :| Reads(v, |ops|, place) && data == Replay(apply, initial, Pick(ops, v));
    ReadingOnGivesTheLog(apply, initial, ops, v, place);
    AfterPlace(log, index);
  }

  // ---------------------------------------------------------------------------------------------
  // The invariant
  // ---------------------------------------------------------------------------------------------

  ghost predicate Good<S, O>(apply: (S, O) -> S, s: State<S, O>, data: S, index: nat) {
    1 <= index <= LastIndex(s) && Traced(apply, s.initial, Join(s.log), data, Place(s.log, index))
  }

  ghost predicate TaskInv<S, O>(apply: (S, O) -> S, s: State<S, O>, n: Node<S>, t: Task<S>) {
    1 <= t.index <= n.pos && (t.data.Some? ==> Good(apply, s, t.data.value, t.index))
  }

  ghost predicate DiskInv<S, O>(apply: (S, O) -> S, s: State<S, O>, pos: nat, disk: Disk<S>) {
    && (if pos == 0 then disk.first == 1 else 2 <= disk.first <= pos + 1)
    && disk.held.index <= pos && (pos >= 1 ==> disk.held.index >= 1)
    && (disk.held.index >= 1 ==> Good(apply, s, disk.held.data, disk.held.index))
  }

  ghost predicate StoreInv<S, O>(apply: (S, O) -> S, s: State<S, O>, n: Node<S>) {
    && n.applied <= n.pos && Placed(s.log, n)
    && (n.pos >= 1 ==> Traced(apply, s.initial, Join(s.log), n.store, PlaceOf(s.log, n)))
  }

  ghost predicate TasksInv<S, O>(apply: (S, O) -> S, s: State<S, O>, n: Node<S>) {
    forall i :: 0 <= i < |n.tasks| ==> TaskInv(apply, s, n, n.tasks[i])
  }

  ghost predicate NodeInv<S, O>(apply: (S, O) -> S, s: State<S, O>, n: Node<S>) {
    StoreInv(apply, s, n) && DiskInv(apply, s, n.pos, n.disk) && TasksInv(apply, s, n)
  }

  ghost predicate Inv<S, O>(apply: (S, O) -> S, s: State<S, O>) {
    && (forall id :: id in s.nodes ==> NodeInv(apply, s, s.nodes[id]))
    && (forall i :: 0 <= i < |s.sent| ==> Good(apply, s, s.sent[i].data, s.sent[i].index))
  }

  lemma GoodAfterCommit<S, O>(apply: (S, O) -> S, s: State<S, O>, data: S, index: nat, entry: Entry<O>)
    requires Good(apply, s, data, index)
    ensures Good(apply, s.(log := s.log + [entry]), data, index)
  {
    TracedAfterCommit(apply, s.initial, Join(s.log), data, Place(s.log, index), entry);
    JoinAfterCommit(s.log, entry);
    PlaceAfterCommit(s.log, entry, index);
  }

  lemma StoreAfterCommit<S, O>(apply: (S, O) -> S, s: State<S, O>, n: Node<S>, entry: Entry<O>)
    requires StoreInv(apply, s, n)
    ensures StoreInv(apply, s.(log := s.log + [entry]), n)
  {
    if n.pos >= 1 {
      TracedAfterCommit(apply, s.initial, Join(s.log), n.store, PlaceOf(s.log, n), entry);
      JoinAfterCommit(s.log, entry);
      PlaceAfterCommit(s.log, entry, n.pos);
    }
  }

  lemma NodeInvAfterCommit<S, O>(apply: (S, O) -> S, s: State<S, O>, n: Node<S>, entry: Entry<O>)
    requires NodeInv(apply, s, n)
    ensures NodeInv(apply, s.(log := s.log + [entry]), n)
  {
    var t := s.(log := s.log + [entry]);
    StoreAfterCommit(apply, s, n, entry);
    if n.disk.held.index >= 1 {
      GoodAfterCommit(apply, s, n.disk.held.data, n.disk.held.index, entry);
    }
    forall i | 0 <= i < |n.tasks| ensures TaskInv(apply, t, n, n.tasks[i]) {
      if n.tasks[i].data.Some? {
        GoodAfterCommit(apply, s, n.tasks[i].data.value, n.tasks[i].index, entry);
      }
    }
  }

  lemma CommitStep<S, O>(apply: (S, O) -> S, s: State<S, O>, entry: Entry<O>)
    requires Inv(apply, s)
    ensures Inv(apply, s.(log := s.log + [entry]))
  {
    var t := s.(log := s.log + [entry]);
    forall id | id in s.nodes ensures NodeInv(apply, t, s.nodes[id]) {
      NodeInvAfterCommit(apply, s, s.nodes[id], entry);
    }
    forall i | 0 <= i < |s.sent| ensures Good(apply, t, s.sent[i].data, s.sent[i].index) {
      GoodAfterCommit(apply, s, s.sent[i].data, s.sent[i].index, entry);
    }
  }

  lemma SameLog<S, O>(apply: (S, O) -> S, s: State<S, O>, t: State<S, O>, n: Node<S>)
    requires NodeInv(apply, s, n) && t.initial == s.initial && t.log == s.log
    ensures NodeInv(apply, t, n)
  {
    forall i | 0 <= i < |n.tasks| ensures TaskInv(apply, t, n, n.tasks[i]) {
      assert TaskInv(apply, s, n, n.tasks[i]);
    }
  }

  /** The step changes one node and nothing the invariant of the others looks at. */
  lemma OneNodeStep<S, O>(apply: (S, O) -> S, s: State<S, O>, id: nat, n: Node<S>)
    requires Inv(apply, s) && NodeInv(apply, s, n)
    ensures Inv(apply, With(s, id, n))
  {
    var t := With(s, id, n);
    forall i | i in t.nodes ensures NodeInv(apply, t, t.nodes[i]) {
      SameLog(apply, s, t, t.nodes[i]);
    }
    forall i | 0 <= i < |t.sent| ensures Good(apply, t, t.sent[i].data, t.sent[i].index) {
      assert Good(apply, s, s.sent[i].data, s.sent[i].index);
    }
  }

  /** Moving on, the node keeps what it holds and what its tasks hold. */
  lemma MovedOn<S, O>(apply: (S, O) -> S, s: State<S, O>, n: Node<S>, m: Node<S>)
    requires NodeInv(apply, s, n) && StoreInv(apply, s, m) && 1 <= n.pos <= m.pos
    requires m.disk == n.disk && m.tasks == n.tasks
    ensures NodeInv(apply, s, m)
  {
    forall i | 0 <= i < |m.tasks| ensures TaskInv(apply, s, m, m.tasks[i]) {
      assert TaskInv(apply, s, n, n.tasks[i]);
    }
  }

  lemma Handled<S, O>(apply: (S, O) -> S, s: State<S, O>, n: Node<S>)
    requires NodeInv(apply, s, n) && 1 <= n.pos < LastIndex(s) && n.part < |s.log[n.pos - 1]|
    ensures NodeInv(apply, s, n.(store := apply(n.store, s.log[n.pos - 1][n.part]), part := n.part + 1))
  {
    var m := n.(store := apply(n.store, s.log[n.pos - 1][n.part]), part := n.part + 1);
    NextOperation(s.log, n);
    TracedAfterHandle(apply, s.initial, Join(s.log), n.store, PlaceOf(s.log, n));
    MovedOn(apply, s, n, m);
  }

  lemma Finished<S, O>(apply: (S, O) -> S, s: State<S, O>, n: Node<S>)
    requires NodeInv(apply, s, n) && 1 <= n.pos < LastIndex(s) && n.part == |s.log[n.pos - 1]|
    ensures NodeInv(apply, s, n.(pos := n.pos + 1, part := 0))
  {
    MovedOn(apply, s, n, n.(pos := n.pos + 1, part := 0));
  }

  lemma StoreIsGood<S, O>(apply: (S, O) -> S, s: State<S, O>, n: Node<S>, index: nat)
    requires StoreInv(apply, s, n) && 1 <= index <= n.pos
    ensures Good(apply, s, n.store, index)
  {
    PlaceGrows(s.log, index, n.pos);
    TracedEarlier(apply, s.initial, Join(s.log), n.store, PlaceOf(s.log, n), Place(s.log, index));
  }

  /** The label was taken no later than the store was read, so the data is good for it. */
  lemma TaskReads<S, O>(apply: (S, O) -> S, s: State<S, O>, n: Node<S>, t: nat)
    requires NodeInv(apply, s, n) && t < |n.tasks|
    ensures NodeInv(apply, s, n.(tasks := n.tasks[t := Task(n.tasks[t].index, Some(n.store))]))
  {
    var m := n.(tasks := n.tasks[t := Task(n.tasks[t].index, Some(n.store))]);
    assert TaskInv(apply, s, n, n.tasks[t]);
    StoreIsGood(apply, s, n, n.tasks[t].index);
    forall i | 0 <= i < |m.tasks| ensures TaskInv(apply, s, m, m.tasks[i]) {
      assert TaskInv(apply, s, n, n.tasks[i]);
    }
  }

  lemma DiskServes<S, O>(apply: (S, O) -> S, s: State<S, O>, pos: nat, disk: Disk<S>, snap: Snapshot<S>)
    requires DiskInv(apply, s, pos, disk) && Good(apply, s, snap.data, snap.index) && snap.index <= pos
    ensures DiskInv(apply, s, pos, SetSnapshot(disk, snap))
  {
  }

  lemma TaskDelivered<S, O>(apply: (S, O) -> S, s: State<S, O>, n: Node<S>, t: nat)
    requires NodeInv(apply, s, n) && t < |n.tasks| && n.tasks[t].data.Some?
    ensures
      var snap := Snapshot(n.tasks[t].index, n.tasks[t].data.value);
      NodeInv(apply, s, n.(disk := SetSnapshot(n.disk, snap), tasks := n.tasks[..t] + n.tasks[t + 1..]))
  {
    assert TaskInv(apply, s, n, n.tasks[t]);
    var snap := Snapshot(n.tasks[t].index, n.tasks[t].data.value);
    var m := n.(disk := SetSnapshot(n.disk, snap), tasks := n.tasks[..t] + n.tasks[t + 1..]);
    DiskServes(apply, s, n.pos, n.disk, snap);
    forall i | 0 <= i < |m.tasks| ensures TaskInv(apply, s, m, m.tasks[i]) {
      assert TaskInv(apply, s, n, n.tasks[if i < t then i else i + 1]);
    }
  }

  lemma ServedAtOnce<S, O>(apply: (S, O) -> S, s: State<S, O>, n: Node<S>)
    requires NodeInv(apply, s, n) && 1 <= n.applied
    ensures NodeInv(apply, s, n.(disk := SetSnapshot(n.disk, Snapshot(n.applied, n.store))))
  {
    var m := n.(disk := SetSnapshot(n.disk, Snapshot(n.applied, n.store)));
    StoreIsGood(apply, s, n, n.applied);
    DiskServes(apply, s, n.pos, n.disk, Snapshot(n.applied, n.store));
    forall i | 0 <= i < |m.tasks| ensures TaskInv(apply, s, m, m.tasks[i]) {
      assert TaskInv(apply, s, n, n.tasks[i]);
    }
  }

  lemma Received<S, O>(apply: (S, O) -> S, s: State<S, O>, n: Node<S>, snap: Snapshot<S>)
    requires NodeInv(apply, s, n) && Good(apply, s, snap.data, snap.index) && n.pos < snap.index
    ensures NodeInv(apply, s, Restored(n, snap))
  {
    var m := Restored(n, snap);
    forall i | 0 <= i < |m.tasks| ensures TaskInv(apply, s, m, m.tasks[i]) {
      assert TaskInv(apply, s, n, n.tasks[i]);
    }
  }

  lemma TaskBegun<S, O>(apply: (S, O) -> S, s: State<S, O>, n: Node<S>)
    requires NodeInv(apply, s, n) && 1 <= n.applied
    ensures NodeInv(apply, s, n.(tasks := n.tasks + [Task(n.applied, None)]))
  {
    var m := n.(tasks := n.tasks + [Task(n.applied, None)]);
    forall i | 0 <= i < |m.tasks| ensures TaskInv(apply, s, m, m.tasks[i]) {
      assert i < |n.tasks| ==> TaskInv(apply, s, n, n.tasks[i]);
    }
  }

  lemma Advanced<S, O>(apply: (S, O) -> S, s: State<S, O>, n: Node<S>, applied: nat)
    requires NodeInv(apply, s, n) && applied <= n.pos
    ensures NodeInv(apply, s, n.(applied := applied))
  {
    var m := n.(applied := applied);
    forall i | 0 <= i < |m.tasks| ensures TaskInv(apply, s, m, m.tasks[i]) {
      assert TaskInv(apply, s, n, n.tasks[i]);
    }
  }

  lemma SendStep<S, O>(apply: (S, O) -> S, s: State<S, O>, id: nat)
    requires Inv(apply, s) && Enabled(s, Send(id))
    ensures Inv(apply, s.(sent := s.sent + [s.nodes[id].disk.held]))
  {
    var t := s.(sent := s.sent + [s.nodes[id].disk.held]);
    assert NodeInv(apply, s, s.nodes[id]);
    forall i | 0 <= i < |t.sent| ensures Good(apply, t, t.sent[i].data, t.sent[i].index) {
      assert i < |s.sent| ==> Good(apply, s, s.sent[i].data, s.sent[i].index);
    }
    forall i | i in t.nodes ensures NodeInv(apply, t, t.nodes[i]) {
      SameLog(apply, s, t, s.nodes[i]);
    }
  }

  ghost predicate Steps<S, O>(apply: (S, O) -> S, s: State<S, O>, step: Step<S, O>) {
    && Enabled(s, step) && !step.Commit? && !step.Send?
    && (!step.Enter? ==> NodeInv(apply, s, s.nodes[step.id]))
    && (step.Receive? ==> Good(apply, s, s.sent[step.message].data, s.sent[step.message].index))
  }

  lemma NodeMoves<S, O>(apply: (S, O) -> S, s: State<S, O>, step: Step<S, O>)
    requires Steps(apply, s, step) && (step.Enter? || step.Handle? || step.Finish? || step.Advance?)
    ensures NodeInv(apply, s, NodeAfter(apply, s, step))
  {
    match step
    case Enter(_, _) =>
    case Handle(id) => Handled(apply, s, s.nodes[id]);
    case Finish(id) => Finished(apply, s, s.nodes[id]);
    case Advance(id, applied) => Advanced(apply, s, s.nodes[id], applied);
  }

  lemma NodeSnapshots<S, O>(apply: (S, O) -> S, s: State<S, O>, step: Step<S, O>)
    requires Steps(apply, s, step) && (step.Begin? || step.Read? || step.Deliver?)
    ensures NodeInv(apply, s, NodeAfter(apply, s, step))
  {
    match step
    case Begin(id) => TaskBegun(apply, s, s.nodes[id]);
    case Read(id, t) => TaskReads(apply, s, s.nodes[id], t);
    case Deliver(id, t) => TaskDelivered(apply, s, s.nodes[id], t);
  }

  lemma NodeStep<S, O>(apply: (S, O) -> S, s: State<S, O>, step: Step<S, O>)
    requires Steps(apply, s, step)
    ensures NodeInv(apply, s, NodeAfter(apply, s, step))
  {
    if step.Inline? {
      ServedAtOnce(apply, s, s.nodes[step.id]);
    } else if step.Receive? {
      Received(apply, s, s.nodes[step.id], s.sent[step.message]);
    } else if step.Begin? || step.Read? || step.Deliver? {
      NodeSnapshots(apply, s, step);
    } else {
      NodeMoves(apply, s, step);
    }
  }

  lemma InvStep<S, O>(apply: (S, O) -> S, s: State<S, O>, step: Step<S, O>)
    requires Inv(apply, s) && Enabled(s, step)
    ensures Inv(apply, Next(apply, s, step))
  {
    if step.Commit? {
      CommitStep(apply, s, step.entry);
    } else if step.Send? {
      SendStep(apply, s, step.id);
    } else {
      NodeStep(apply, s, step);
      OneNodeStep(apply, s, step.id, NodeAfter(apply, s, step));
    }
  }

  lemma StartInv<S, O>(apply: (S, O) -> S, initial: S, leader: nat)
    ensures Inv(apply, Start(initial, leader))
  {
    var s: State<S, O> := Start(initial, leader);
    var v: seq<nat> := [];
    assert Reads(v, |Join(s.log)|, 0) && Pick(Join(s.log), v) == [];
    assert Traced(apply, initial, Join(s.log), initial, 0);
  }

  lemma {:induction false} InvRun<S(!new), O>(
    apply: (S, O) -> S, trace: seq<State<S, O>>, steps: seq<Step<S, O>>, i: nat)
    requires IsRun(apply, trace, steps) && i < |trace|
    ensures Inv(apply, trace[i])
  {
    if i > 0 {
      InvRun(apply, trace, steps, i - 1);
      InvStep(apply, trace[i - 1], steps[i - 1]);
    } else {
      var initial: S, leader: nat :| trace[0] == Start(initial, leader);
      StartInv(apply, initial, leader);
    }
  }

  // ---------------------------------------------------------------------------------------------
  // Snapshots are sound exactly for stores that forgive repeats
  // ---------------------------------------------------------------------------------------------

  /** Every snapshot, served or on the wire, rebuilds the full store from the entries after its index. */
  ghost predicate SnapshotsSound<S, O>(apply: (S, O) -> S, s: State<S, O>) {
    && (forall id :: id in s.nodes && s.nodes[id].disk.held.index >= 1 ==>
          Sound(apply, s.initial, s.log, s.nodes[id].disk.held.data, s.nodes[id].disk.held.index))
    && (forall m :: 0 <= m < |s.sent| ==> Sound(apply, s.initial, s.log, s.sent[m].data, s.sent[m].index))
  }

  lemma InvSnapshotsSound<S(!new), O(!new)>(apply: (S, O) -> S, s: State<S, O>)
    requires RepeatsAreHarmless(apply) && Inv(apply, s)
    ensures SnapshotsSound(apply, s)
  {
    forall id | id in s.nodes && s.nodes[id].disk.held.index >= 1
      ensures Sound(apply, s.initial, s.log, s.nodes[id].disk.held.data, s.nodes[id].disk.held.index)
    {
      assert NodeInv(apply, s, s.nodes[id]);
      TracedIsSound(apply, s.initial, s.log, s.nodes[id].disk.held.data, s.nodes[id].disk.held.index);
    }
    forall m | 0 <= m < |s.sent| ensures Sound(apply, s.initial, s.log, s.sent[m].data, s.sent[m].index) {
      assert Good(apply, s, s.sent[m].data, s.sent[m].index);
      TracedIsSound(apply, s.initial, s.log, s.sent[m].data, s.sent[m].index);
    }
  }

  ghost predicate Reachable<S(!new), O(!new)>(apply: (S, O) -> S, s: State<S, O>) {
    exists trace, steps :: IsRun(apply, trace, steps) && trace[|steps|] == s
  }

  lemma ReachableInv<S(!new), O(!new)>(apply: (S, O) -> S, s: State<S, O>)
    requires Reachable(apply, s)
    ensures Inv(apply, s)
  {
    var trace, steps :| IsRun(apply, trace, steps) && trace[|steps|] == s;
    InvRun(apply, trace, steps, |steps|);
  }

  lemma ReachableNext<S(!new), O(!new)>(apply: (S, O) -> S, s: State<S, O>, step: Step<S, O>)
    requires Reachable(apply, s) && Enabled(s, step)
    ensures Reachable(apply, Next(apply, s, step))
  {
    var trace, steps :| IsRun(apply, trace, steps) && trace[|steps|] == s;
    LongerRun(apply, trace, steps, step, Next(apply, s, step));
  }

  lemma LongerRun<S(!new), O(!new)>(
    apply: (S, O) -> S, trace: seq<State<S, O>>, steps: seq<Step<S, O>>, step: Step<S, O>, t: State<S, O>)
    requires IsRun(apply, trace, steps) && Enabled(trace[|steps|], step) && t == Next(apply, trace[|steps|], step)
    ensures Reachable(apply, t)
  {
    var trace', steps' := trace + [t], steps + [step];
    forall i {:trigger steps'[i]} | 0 <= i < |steps'|
      ensures Enabled(trace'[i], steps'[i]) && trace'[i + 1] == Next(apply, trace'[i], steps'[i])
    {
      if i < |steps| {
        assert steps'[i] == steps[i] && trace'[i] == trace[i] && trace'[i + 1] == trace[i + 1];
      }
    }
    assert trace'[0] == trace[0];
    assert IsRun(apply, trace', steps') && trace'[|steps'|] == t;
  }

  lemma ReachableStart<S(!new), O(!new)>(apply: (S, O) -> S, initial: S, leader: nat)
    ensures Reachable(apply, Start(initial, leader))
  {
    var trace: seq<State<S, O>>, steps: seq<Step<S, O>> := [Start(initial, leader)], [];
    assert IsRun(apply, trace, steps) && trace[|steps|] == Start(initial, leader);
  }

  /** The leader in the middle of its first entry, after k of its operations. */
  function InTheMiddle<S, O>(apply: (S, O) -> S, initial: S, ops: seq<O>, k: nat): (s: State<S, O>)
    requires k <= |ops|
  {
    var n := Node(Replay(apply, initial, ops[..k]), 1, k, 1, Disk(Snapshot(1, initial), 2), []);
    State(initial, [ops], map[1 := n], [])
  }

  lemma MiddleMovesOn<S, O>(apply: (S, O) -> S, initial: S, ops: seq<O>, k: nat)
    requires k < |ops|
    ensures
      var s := InTheMiddle(apply, initial, ops, k);
      Enabled(s, Handle(1)) && Next(apply, s, Handle(1)) == InTheMiddle(apply, initial, ops, k + 1)
  {
    assert ops[..k + 1] == ops[..k] + [ops[k]];
    ReplayLast(apply, initial, ops[..k], ops[k]);
  }

  lemma {:induction false} MiddleIsReachable<S(!new), O(!new)>(apply: (S, O) -> S, initial: S, ops: seq<O>, k: nat)
    requires k <= |ops|
    ensures Reachable(apply, InTheMiddle(apply, initial, ops, k))
  {
    if k == 0 {
      var s: State<S, O> := Start(initial, 1);
      ReachableStart(apply, initial, 1);
      ReachableNext(apply, s, Commit(ops));
      assert Next(apply, s, Commit(ops)) == InTheMiddle(apply, initial, ops, 0);
    } else {
      MiddleIsReachable(apply, initial, ops, k - 1);
      MiddleMovesOn(apply, initial, ops, k - 1);
      ReachableNext(apply, InTheMiddle(apply, initial, ops, k - 1), Handle(1));
    }
  }

  /** A store that notices a repeated block gets an unsound snapshot: the data of the block, the label before it. */
  lemma RepeatMakesUnsound<S(!new), O(!new)>(apply: (S, O) -> S, initial: S, ops: seq<O>)
    returns (s: State<S, O>)
    requires Replay(apply, Replay(apply, initial, ops), ops) != Replay(apply, initial, ops)
    ensures Reachable(apply, s) && !SnapshotsSound(apply, s)
  {
    var s0 := InTheMiddle(apply, initial, ops, |ops|);
    MiddleIsReachable(apply, initial, ops, |ops|);
    ReachableNext(apply, s0, Finish(1));
    var s1 := Next(apply, s0, Finish(1));
    ReachableNext(apply, s1, Inline(1));
    s := Next(apply, s1, Inline(1));
    assert ops[..|ops|] == ops;
    assert s.log == [ops] && s.log[0..] == [ops];
    JoinOne(ops);
    assert s.nodes[1].disk.held == Snapshot(1, Replay(apply, initial, ops));
  }

  lemma JoinOne<T>(block: seq<T>)
    ensures Join([block]) == block
  {
    assert JoinTo([block], 1) == JoinTo([block], 0) + block;
  }

  /**
   Whatever the store: in every run every snapshot is sound, although labels lag behind the data, data is
   read in the middle of an entry and followers snapshot restored stores again, if and only if a
   repeated block of operations does nothing.
   */
  lemma SnapshotsAreSoundIff<S(!new), O(!new)>(apply: (S, O) -> S)
    ensures (forall s: State<S, O> :: Reachable(apply, s) ==> SnapshotsSound(apply, s)) <==> RepeatsAreHarmless(apply)
  {
    if RepeatsAreHarmless(apply) {
      forall s: State<S, O> | Reachable(apply, s) ensures SnapshotsSound(apply, s) {
        ReachableInv(apply, s);
        InvSnapshotsSound(apply, s);
      }
    } else {
      var initial: S, ops: seq<O> :| Replay(apply, Replay(apply, initial, ops), ops) != Replay(apply, initial, ops);
      var s := RepeatMakesUnsound(apply, initial, ops);
    }
  }

  /** So the last-writer-wins store of the library's README is safe in every run. */
  lemma HashStoreSnapshotsAreSound(s: State<Table, Op>)
    requires Reachable(StoreLaw.Apply, s)
    ensures SnapshotsSound(StoreLaw.Apply, s)
  {
    HashStoreForgivesRepeats();
    SnapshotsAreSoundIff(StoreLaw.Apply);
  }

  /** A label never exceeds the log position of the store the data is read from. */
  lemma LabelsNeverLeadTheStore<S(!new), O>(
    apply: (S, O) -> S, trace: seq<State<S, O>>, steps: seq<Step<S, O>>, i: nat)
    requires IsRun(apply, trace, steps) && i < |steps|
    ensures steps[i].Read? ==>
      var n := trace[i].nodes[steps[i].id];
      1 <= n.tasks[steps[i].task].index <= n.pos
    ensures steps[i].Inline? ==> trace[i].nodes[steps[i].id].applied <= trace[i].nodes[steps[i].id].pos
  {
    InvRun(apply, trace, steps, i);
    if steps[i].Read? || steps[i].Inline? {
      var n := trace[i].nodes[steps[i].id];
      assert NodeInv(apply, trace[i], n);
      if steps[i].Read? {
        assert TaskInv(apply, trace[i], n, n.tasks[steps[i].task]);
      }
    }
  }

  lemma AtTheEnd<S(!new), O(!new)>(apply: (S, O) -> S, s: State<S, O>, n: Node<S>)
    requires RepeatsAreHarmless(apply) && StoreInv(apply, s, n) && n.pos == LastIndex(s)
    ensures n.store == Replay(apply, s.initial, Join(s.log))
  {
    TracedIsSound(apply, s.initial, s.log, n.store, n.pos);
    assert s.log[|s.log|..] == [];
    assert Join<O>([]) == [];
  }

  /** A node that has applied the whole log holds the store the whole log gives; so any two agree. */
  lemma ReplicasConverge<S(!new), O(!new)>(apply: (S, O) -> S, s: State<S, O>, a: nat, b: nat)
    requires RepeatsAreHarmless(apply) && Reachable(apply, s)
    requires a in s.nodes && s.nodes[a].pos == LastIndex(s) && b in s.nodes && s.nodes[b].pos == LastIndex(s)
    ensures s.nodes[a].store == Replay(apply, s.initial, Join(s.log)) == s.nodes[b].store
  {
    ReachableInv(apply, s);
    assert NodeInv(apply, s, s.nodes[a]) && NodeInv(apply, s, s.nodes[b]);
    AtTheEnd(apply, s, s.nodes[a]);
    AtTheEnd(apply, s, s.nodes[b]);
  }
}
