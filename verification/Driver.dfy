/**
 The replicated-log driver as a state machine: what each iteration of the node's loop does to the
 merger, the table of parked reply channels, the log, the store and the clients.

 The consensus library appears only through its contract: a proposal is appended or not (refused, or
 forwarded to another node), entries arrive by replication, the node's own among them, the uncommitted
 tail may be replaced, committed entries are handed out once, in log order, and a received snapshot
 replaces the store and everything committed before. The log is the one after the last snapshot.
 */
module Driver {
  import opened Basics
  import opened Batching
  import opened Selection

  datatype Change = AddNode(id: nat) | RemoveNode(id: nat, stale: bool) | OtherChange(id: nat)

  datatype Body = Blank | Batch(proposals: Proposals) | Reconfigure(change: Change)

  /**
   A log entry and the sequence number in its context. `own` tells whether this node gave it that
   number; no step reads it.
   */
  datatype Entry = Entry(own: bool, num: nat, body: Body)

  /** `Result(i)` carries what the store's i-th `apply` call returned. */
  datatype Response =
    | WrongLeader
    | Busy
    | Result(call: nat)
    | Joined(id: nat, peers: set<nat>)
    | Done
    | Unimplemented

  datatype Answer = Answer(chan: Chan, response: Response)

  datatype Node = Node(
    id: nat,
    queue: Queue,
    parked: map<nat, ReplyChan>,
    next: nat,
    log: seq<Entry>,
    handled: nat,
    calls: seq<Bytes>,
    answers: seq<Answer>,
    dropped: seq<Chan>,
    peers: set<nat>,
    quit: bool)

  // ---------------------------------------------------------------------------------------------
  // Steps
  // ---------------------------------------------------------------------------------------------

  function TakeAndPropose(n: Node, now: int, stamp: int, ok: bool): (r: Node)
  {
    if !BatchReady(n.queue, now) then n
    else
      n.(queue := Remaining(n.queue, stamp),
         parked := n.parked[n.next := PackChans(Taken(n.queue))],
         next := n.next + 1,
         log := if ok then n.log + [Entry(true, n.next, Batch(Pack(Taken(n.queue))))] else n.log)
  }

  function Send(n: Node, chan: Chan, response: Response): (r: Node) {
    n.(answers := n.answers + [Answer(chan, response)])
  }

  function OnPropose(
    n: Node, data: Bytes, chan: Chan, leader: bool, busy: bool, now: int, stamp: int, ok: bool): (r: Node)
  {
    if !leader then Send(n, chan, WrongLeader)
    else if busy then Send(n, chan, Busy)
    else TakeAndPropose(n.(queue := Added(n.queue, Item(data, chan))), now, stamp, ok)
  }

  /** Node id 0 in a request means the receiving node itself. */
  function Addressed(n: Node, change: Change): (r: Change) {
    if change.id == 0 then change.(id := n.id) else change
  }

  function OnConfigChange(n: Node, change: Change, chan: Chan, leader: bool, ok: bool): (r: Node) {
    if !leader then Send(n, chan, WrongLeader)
    else
      n.(parked := n.parked[n.next := OneChan(chan)],
         next := n.next + 1,
         log := if ok then n.log + [Entry(true, n.next, Reconfigure(Addressed(n, change)))] else n.log)
  }

  /** One `apply` call, and the reply to the client that waits for it unless it has gone away. */
  function ApplyOne(n: Node, data: Bytes, waiting: seq<Chan>, canceled: set<Chan>): (r: Node) {
    var applied := n.(calls := n.calls + [data]);
    if waiting == [] then applied
    else if waiting[|waiting| - 1] in canceled then
      applied.(dropped := n.dropped + [waiting[|waiting| - 1]])
    else Send(applied, waiting[|waiting| - 1], Result(|n.calls|))
  }

  function DropLast<T>(s: seq<T>): (r: seq<T>) {
    if s == [] then [] else s[..|s| - 1]
  }

  /** Pops proposals and channels from the ends of their vectors, side by side. */
  function Drain(n: Node, datas: seq<Bytes>, chans: seq<Chan>, canceled: set<Chan>): (r: Node)
    decreases |datas|
  {
    if datas == [] then n.(dropped := n.dropped + chans)
    else Drain(ApplyOne(n, datas[|datas| - 1], chans, canceled), DropLast(datas), DropLast(chans), canceled)
  }

  function HandleNormal(n: Node, num: nat, proposals: Proposals, canceled: set<Chan>): (r: Node) {
    var m := n.(parked := n.parked - {num});
    match proposals
    case One(data) =>
      if num !in n.parked then ApplyOne(m, data, [], canceled)
      else (
        match n.parked[num]
        case OneChan(c) => ApplyOne(m, data, [c], canceled)
        case MoreChans(cs) => ApplyOne(m.(dropped := m.dropped + cs), data, [], canceled))
    case More(datas) =>
      if num !in n.parked then Drain(m, datas, [], canceled)
      else (
        match n.parked[num]
        case OneChan(c) => Drain(m.(dropped := m.dropped + [c]), datas, [], canceled)
        case MoreChans(cs) => Drain(m, datas, cs, canceled))
  }

  /** What a configuration change makes of the peers a node knows and of the node itself. */
  function Reconfigured(n: Node, change: Change): (r: Node) {
    match change
    case AddNode(id) => n.(peers := n.peers + {id})
    case RemoveNode(id, stale) =>
      if id == n.id then n.(quit := n.quit || !stale) else n.(peers := n.peers - {id})
    case OtherChange(_) => n
  }

  function ConfigResponse(change: Change, peers: set<nat>): (r: Response) {
    match change
    case AddNode(id) => Joined(id, peers)
    case RemoveNode(_, _) => Done
    case OtherChange(_) => Unimplemented
  }

  /** Answers a single client parked under the number; more than one are dropped. */
  function AnswerParked(n: Node, num: nat, response: Response): (r: Node) {
    if num !in n.parked then n
    else
      var freed := n.(parked := n.parked - {num});
      match n.parked[num]
      case OneChan(c) => Send(freed, c, response)
      case MoreChans(cs) => freed.(dropped := freed.dropped + cs)
  }

  function HandleConfigChange(n: Node, num: nat, change: Change): (r: Node) {
    var m := Reconfigured(n, change);
    AnswerParked(m, num, ConfigResponse(change, m.peers))
  }

  /** Hands the next committed entry to the node. */
  function Handle(n: Node, canceled: set<Chan>): (r: Node)
    requires n.handled < |n.log|
  {
    var e := n.log[n.handled];
    var m := n.(handled := n.handled + 1);
    if e.body.Blank? then m
    else if e.body.Batch? then HandleNormal(m, e.num, e.body.proposals, canceled)
    else HandleConfigChange(m, e.num, e.body.change)
  }

  /** A received snapshot takes the place of the store and the log. */
  function Restored(n: Node): (r: Node) {
    n.(log := [], handled := 0)
  }

  // ---------------------------------------------------------------------------------------------
  // Runs
  // ---------------------------------------------------------------------------------------------

  datatype Event =
    | Propose(data: Bytes, chan: Chan, leader: bool, busy: bool, now: int, stamp: int, ok: bool)
    | ConfigChange(change: Change, chan: Chan, leader: bool, ok: bool)
    | Idle(now: int, stamp: int, ok: bool)
    | Replicate(entry: Entry)
    | Truncate(length: nat)
    | Restore
    | Commit(canceled: set<Chan>)

  /** What took a sequence number: a batch of proposals, oldest first, or a configuration change. */
  datatype Round = BatchRound(items: seq<Item>) | ConfigRound(change: Change, chan: Chan)

  /**
   What happened so far: the channels of all requests, the proposals let in, the numbers given out, and
   for each store call whose proposal it carried out, if it was one of this node; and what the store
   calls and the peers were when the last snapshot was restored.
   */
  datatype History = History(
    received: seq<Chan>,
    accepted: seq<Item>,
    rounds: seq<Round>,
    carried: seq<Option<Item>>,
    callsBefore: seq<Bytes>,
    peersBefore: set<nat>)

  datatype State = State(node: Node, past: History)

  /** The entry holds exactly what took its sequence number. */
  ghost predicate Carries(body: Body, round: Round) {
    match round
    case BatchRound(items) => |items| > 0 && body == Batch(Pack(items))
    case ConfigRound(change, _) => body == Reconfigure(change)
  }

  /** The entry is one this node has numbered, with what took that number. */
  ghost predicate IsOwn(e: Entry, rounds: seq<Round>) {
    e.num < |rounds| && Carries(e.body, rounds[e.num])
  }

  ghost predicate Enabled(s: State, e: Event) {
    match e
    case Propose(_, chan, _, _, _, _, _) => !s.node.quit && chan !in s.past.received
    case ConfigChange(_, chan, _, _) => !s.node.quit && chan !in s.past.received
    case Idle(_, _, _) => !s.node.quit
    case Replicate(entry) => !s.node.quit && (entry.own ==> IsOwn(entry, s.past.rounds))
    case Truncate(length) => !s.node.quit && s.node.handled <= length <= |s.node.log|
    case Restore => !s.node.quit
    case Commit(_) => s.node.handled < |s.node.log|
  }

  ghost function NextNode(n: Node, e: Event): (r: Node)
    requires e.Commit? ==> n.handled < |n.log|
    requires e.Truncate? ==> e.length <= |n.log|
  {
    match e
    case Propose(data, chan, leader, busy, now, stamp, ok) => OnPropose(n, data, chan, leader, busy, now, stamp, ok)
    case ConfigChange(change, chan, leader, ok) => OnConfigChange(n, change, chan, leader, ok)
    case Idle(now, stamp, ok) => TakeAndPropose(n, now, stamp, ok)
    case Replicate(entry) => n.(log := n.log + [entry])
    case Truncate(length) => n.(log := n.log[..length])
    case Restore => Restored(n)
    case Commit(canceled) => Handle(n, canceled)
  }

  ghost function Somes(items: seq<Item>): (r: seq<Option<Item>>)
    ensures |r| == |items|
    ensures forall i :: 0 <= i < |items| ==> r[i] == Some(items[i])
  {
    if items == [] then [] else Somes(items[..|items| - 1]) + [Some(items[|items| - 1])]
  }

  ghost function Nones(n: nat): (r: seq<Option<Item>>)
    ensures |r| == n
    ensures forall i :: 0 <= i < n ==> r[i] == None
  {
    if n == 0 then [] else Nones(n - 1) + [None]
  }

  /** Whose proposals the store calls of an entry carry out. */
  ghost function CarriedBy(e: Entry, rounds: seq<Round>): (r: seq<Option<Item>>) {
    if !e.body.Batch? then []
    else if e.own && IsOwn(e, rounds) then Somes(RoundItems(rounds[e.num]))
    else Nones(|InOrder(e.body.proposals)|)
  }

  ghost function NextRounds(n: Node, rounds: seq<Round>, now: int): (r: seq<Round>)
  {
    if BatchReady(n.queue, now) then rounds + [BatchRound(Taken(n.queue))] else rounds
  }

  ghost function NextPast(s: State, e: Event): (r: History)
  {
    match e
    case Propose(data, chan, leader, busy, now, _, _) =>
      if leader && !busy then
        s.past.(
          received := s.past.received + [chan],
          accepted := s.past.accepted + [Item(data, chan)],
          rounds := NextRounds(s.node.(queue := Added(s.node.queue, Item(data, chan))), s.past.rounds, now))
      else s.past.(received := s.past.received + [chan])
    case ConfigChange(change, chan, leader, _) =>
      if leader then
        s.past.(received := s.past.received + [chan],
                rounds := s.past.rounds + [ConfigRound(Addressed(s.node, change), chan)])
      else s.past.(received := s.past.received + [chan])
    case Idle(now, _, _) => s.past.(rounds := NextRounds(s.node, s.past.rounds, now))
    case Replicate(_) => s.past
    case Truncate(_) => s.past
    case Restore => s.past.(callsBefore := s.node.calls, peersBefore := s.node.peers)
    case Commit(_) =>
      if s.node.handled < |s.node.log| then
        s.past.(carried := s.past.carried + CarriedBy(s.node.log[s.node.handled], s.past.rounds))
      else s.past
  }

  ghost function Next(s: State, e: Event): (r: State)
    requires Enabled(s, e)
  {
    State(NextNode(s.node, e), NextPast(s, e))
  }

  /** `trace` lists the states of a run of `events`, first and last included. */
  ghost predicate IsRun(trace: seq<State>, events: seq<Event>) {
    && |trace| == |events| + 1
    && forall i {:trigger events[i]} :: 0 <= i < |events| ==>
      Enabled(trace[i], events[i]) && trace[i + 1] == Next(trace[i], events[i])
  }

  ghost function Start(id: nat, size: nat, timeout: int, peers: set<nat>): (s: State) {
    State(
      Node(id, Queue([], 0, size, timeout), map[], 0, [], 0, [], [], [], peers, false),
      History([], [], [], [], [], peers))
  }

  ghost predicate IsRunFromStart(trace: seq<State>, events: seq<Event>) {
    && IsRun(trace, events)
    && exists id, size, timeout, peers :: size >= 1 && trace[0] == Start(id, size, timeout, peers)
  }

  // ---------------------------------------------------------------------------------------------
  // Order
  // ---------------------------------------------------------------------------------------------

  ghost function RoundItems(r: Round): (items: seq<Item>) {
    if r.BatchRound? then r.items else []
  }

  ghost function Blocks(rounds: seq<Round>): (r: seq<seq<Item>>)
    ensures |r| == |rounds|
    ensures forall i :: 0 <= i < |rounds| ==> r[i] == RoundItems(rounds[i])
  {
    if rounds == [] then [] else Blocks(rounds[..|rounds| - 1]) + [RoundItems(rounds[|rounds| - 1])]
  }

  /** The items of all rounds, one after the other. */
  ghost function Flatten(rounds: seq<Round>): (items: seq<Item>) {
    Join(Blocks(rounds))
  }

  /** The store calls an entry stands for, a batch oldest first. */
  ghost function EntryCalls(e: Entry): (calls: seq<Bytes>) {
    if e.body.Batch? then InOrder(e.body.proposals) else []
  }

  /** The store calls the entries at positions lo up to but not including hi stand for. */
  ghost function CallsOf(log: seq<Entry>, lo: nat, hi: nat): (calls: seq<Bytes>)
    requires lo <= hi <= |log|
  {
    if lo == hi then [] else CallsOf(log, lo, hi - 1) + EntryCalls(log[hi - 1])
  }

  ghost predicate QueueInv(s: State) {
    && |s.node.queue.items| < s.node.queue.size
    && s.node.next == |s.past.rounds|
    && Flatten(s.past.rounds) + s.node.queue.items == s.past.accepted
  }

  ghost predicate LogInv(s: State) {
    forall i :: 0 <= i < |s.node.log| && s.node.log[i].own ==> IsOwn(s.node.log[i], s.past.rounds)
  }

  ghost predicate CallsInv(s: State) {
    && s.node.handled <= |s.node.log|
    && s.node.calls == s.past.callsBefore + CallsOf(s.node.log, 0, s.node.handled)
  }

  /** Every proposal let in came with a channel of its own. */
  ghost predicate AcceptedInv(p: History) {
    && (forall i :: 0 <= i < |p.accepted| ==> p.accepted[i].chan in p.received)
    && (forall i, j :: 0 <= i < j < |p.accepted| ==> p.accepted[i].chan != p.accepted[j].chan)
  }

  ghost predicate OrderInv(s: State) {
    QueueInv(s) && LogInv(s) && CallsInv(s) && AcceptedInv(s.past)
  }

  lemma FlattenAppend(rounds: seq<Round>, r: Round)
    ensures Flatten(rounds + [r]) == Flatten(rounds) + RoundItems(r)
  {
    JoinFrame(Blocks(rounds + [r]), Blocks(rounds), |rounds|);
  }

  lemma FlattenHolds(rounds: seq<Round>, k: nat, item: Item)
    requires k < |rounds| && item in RoundItems(rounds[k])
    ensures item in Flatten(rounds)
  {
    var t :| 0 <= t < |RoundItems(rounds[k])| && RoundItems(rounds[k])[t] == item;
    JoinAt(Blocks(rounds), k, |rounds|, t);
  }

  lemma {:induction false} CallsFrame(a: seq<Entry>, b: seq<Entry>, n: nat)
    requires n <= |a| && n <= |b| && forall i :: 0 <= i < n ==> a[i] == b[i]
    ensures CallsOf(a, 0, n) == CallsOf(b, 0, n)
  {
    if n > 0 {
      CallsFrame(a, b, n - 1);
    }
  }

  /** Draining applies every proposal, newest slot last, whoever waits for it. */
  lemma {:induction false} DrainCalls(n: Node, datas: seq<Bytes>, chans: seq<Chan>, canceled: set<Chan>)
    ensures
      var r := Drain(n, datas, chans, canceled);
      r == n.(calls := n.calls + Reverse(datas), answers := r.answers, dropped := r.dropped)
    decreases |datas|
  {
    if datas == [] {
      assert n.calls + Reverse(datas) == n.calls;
    } else {
      var last := datas[|datas| - 1];
      DrainCalls(ApplyOne(n, last, chans, canceled), DropLast(datas), DropLast(chans), canceled);
      assert n.calls + [last] + Reverse(DropLast(datas)) == n.calls + Reverse(datas);
    }
  }

  lemma HandleNormalCalls(n: Node, num: nat, p: Proposals, canceled: set<Chan>)
    ensures
      var r := HandleNormal(n, num, p, canceled);
      r == n.(parked := n.parked - {num}, calls := n.calls + InOrder(p), answers := r.answers, dropped := r.dropped)
  {
    if p.More? {
      var m := n.(parked := n.parked - {num});
      if num !in n.parked {
        DrainCalls(m, p.datas, [], canceled);
      } else if n.parked[num].OneChan? {
        DrainCalls(m.(dropped := m.dropped + [n.parked[num].chan]), p.datas, [], canceled);
      } else {
        DrainCalls(m, p.datas, n.parked[num].chans, canceled);
      }
    }
  }

  lemma {:induction false} HandleIsNormal(n: Node, canceled: set<Chan>)
    requires n.handled < |n.log| && n.log[n.handled].body.Batch?
    ensures
      var e := n.log[n.handled];
      Handle(n, canceled) == HandleNormal(n.(handled := n.handled + 1), e.num, e.body.proposals, canceled)
  {
  }

  lemma {:induction false} HandleIsConfigChange(n: Node, canceled: set<Chan>)
    requires n.handled < |n.log| && n.log[n.handled].body.Reconfigure?
    ensures
      var e := n.log[n.handled];
      Handle(n, canceled) == HandleConfigChange(n.(handled := n.handled + 1), e.num, e.body.change)
  {
  }

  /** A committed entry changes the store by its own proposals, oldest first, and nothing else decides them. */
  lemma HandleCalls(n: Node, canceled: set<Chan>)
    requires n.handled < |n.log|
    ensures
      var r := Handle(n, canceled);
      && r.calls == n.calls + EntryCalls(n.log[n.handled])
      && r.queue == n.queue && r.next == n.next && r.log == n.log && r.handled == n.handled + 1
  {
    var e := n.log[n.handled];
    if e.body.Batch? {
      HandleIsNormal(n, canceled);
      HandleNormalCalls(n.(handled := n.handled + 1), e.num, e.body.proposals, canceled);
    }
  }

  lemma LogAppend(s: State, r: Round, body: Body)
    requires LogInv(s) && Carries(body, r)
    ensures LogInv(s.(past := s.past.(rounds := s.past.rounds + [r])))
    ensures LogInv(State(s.node.(log := s.node.log + [Entry(true, |s.past.rounds|, body)]),
                         s.past.(rounds := s.past.rounds + [r])))
  {
    assert forall k :: 0 <= k < |s.past.rounds| ==> (s.past.rounds + [r])[k] == s.past.rounds[k];
  }

  /** What one call of `take_and_propose` does when at most one full batch is queued. */
  lemma TakeAndProposeOrder(s: State, now: int, stamp: int, ok: bool)
    requires |s.node.queue.items| <= s.node.queue.size && s.node.queue.size >= 1
    requires |s.node.queue.items| == s.node.queue.size ==> BatchReady(s.node.queue, now)
    requires s.node.next == |s.past.rounds|
    requires Flatten(s.past.rounds) + s.node.queue.items == s.past.accepted
    requires LogInv(s) && CallsInv(s) && AcceptedInv(s.past)
    ensures OrderInv(State(TakeAndPropose(s.node, now, stamp, ok),
                           s.past.(rounds := NextRounds(s.node, s.past.rounds, now))))
  {
    var n := s.node;
    var q := n.queue;
    if BatchReady(q, now) {
      var items := q.items;
      TakeEmptiesQueue(q, stamp);
      var t := State(TakeAndPropose(n, now, stamp, ok), s.past.(rounds := s.past.rounds + [BatchRound(items)]));
      assert LogInv(t) by {
        LogAppend(s, BatchRound(items), Batch(Pack(items)));
      }
      assert QueueInv(t) by {
        FlattenAppend(s.past.rounds, BatchRound(items));
        assert Flatten(t.past.rounds) + [] == Flatten(t.past.rounds);
      }
      CallsFrame(t.node.log, n.log, n.handled);
    }
  }

  lemma AcceptedNext(p: History, item: Item)
    requires AcceptedInv(p) && item.chan !in p.received
    ensures AcceptedInv(p.(received := p.received + [item.chan], accepted := p.accepted + [item]))
  {
  }

  lemma ProposeOrder(s: State, e: Event)
    requires OrderInv(s) && Enabled(s, e) && e.Propose?
    ensures OrderInv(Next(s, e))
  {
    if e.leader && !e.busy {
      var item := Item(e.data, e.chan);
      var q := Added(s.node.queue, item);
      assert Flatten(s.past.rounds) + q.items == s.past.accepted + [item];
      var s' := State(s.node.(queue := q),
                      s.past.(received := s.past.received + [e.chan], accepted := s.past.accepted + [item]));
      AcceptedNext(s.past, item);
      TakeAndProposeOrder(s', e.now, e.stamp, e.ok);
    }
  }

  lemma ConfigChangeOrder(s: State, e: Event)
    requires OrderInv(s) && Enabled(s, e) && e.ConfigChange?
    ensures OrderInv(Next(s, e))
  {
    if e.leader {
      var r := ConfigRound(Addressed(s.node, e.change), e.chan);
      FlattenAppend(s.past.rounds, r);
      assert Flatten(s.past.rounds) + [] == Flatten(s.past.rounds);
      LogAppend(s, r, Reconfigure(r.change));
      CallsFrame(Next(s, e).node.log, s.node.log, s.node.handled);
    }
  }

  /** The next entry is committed and its calls are made. */
  lemma CommittedOrder(s: State, t: State)
    requires OrderInv(s) && s.node.handled < |s.node.log|
    requires t.node.queue == s.node.queue && t.node.next == s.node.next && t.node.log == s.node.log
    requires t.node.handled == s.node.handled + 1
    requires t.node.calls == s.node.calls + EntryCalls(s.node.log[s.node.handled])
    requires t.past == s.past.(carried := t.past.carried)
    ensures OrderInv(t)
  {
    SameQueue(s, t);
    assert CallsInv(t) by {
      var n := s.node.handled;
      assert CallsOf(s.node.log, 0, n + 1) == CallsOf(s.node.log, 0, n) + EntryCalls(s.node.log[n]);
      Associative(s.past.callsBefore, CallsOf(s.node.log, 0, n), EntryCalls(s.node.log[n]));
    }
    assert LogInv(t) by { SameOwn(s, t); }
  }

  lemma SameQueue(s: State, t: State)
    requires QueueInv(s) && t.node.queue == s.node.queue && t.node.next == s.node.next
    requires t.past.rounds == s.past.rounds && t.past.accepted == s.past.accepted
    ensures QueueInv(t)
  {
  }

  lemma SameOwn(s: State, t: State)
    requires LogInv(s) && t.past.rounds == s.past.rounds && (t.node.log == s.node.log || t.node.log == [])
    ensures LogInv(t)
  {
  }

  lemma CommitOrder(s: State, e: Event)
    requires OrderInv(s) && Enabled(s, e) && e.Commit?
    ensures OrderInv(Next(s, e))
  {
    HandleCalls(s.node, e.canceled);
    CommittedOrder(s, Next(s, e));
  }

  lemma RestoreOrder(s: State, t: State)
    requires OrderInv(s) && t.node.queue == s.node.queue && t.node.next == s.node.next
    requires t.node.log == [] && t.node.handled == 0 && t.node.calls == s.node.calls == t.past.callsBefore
    requires t.past.rounds == s.past.rounds && t.past.accepted == s.past.accepted && t.past.received == s.past.received
    ensures OrderInv(t)
  {
    SameQueue(s, t);
    SameOwn(s, t);
    assert s.node.calls + [] == s.node.calls;
  }

  lemma ReplicateOrder(s: State, entry: Entry)
    requires OrderInv(s) && (entry.own ==> IsOwn(entry, s.past.rounds))
    ensures OrderInv(s.(node := s.node.(log := s.node.log + [entry])))
  {
    var t := s.(node := s.node.(log := s.node.log + [entry]));
    assert LogInv(t) by {
      assert forall i :: 0 <= i < |s.node.log| ==> t.node.log[i] == s.node.log[i];
    }
    CallsFrame(t.node.log, s.node.log, s.node.handled);
  }

  lemma TruncateOrder(s: State, length: nat)
    requires OrderInv(s) && s.node.handled <= length <= |s.node.log|
    ensures OrderInv(s.(node := s.node.(log := s.node.log[..length])))
  {
    var t := s.(node := s.node.(log := s.node.log[..length]));
    assert LogInv(t) by {
      assert forall i :: 0 <= i < length ==> t.node.log[i] == s.node.log[i];
    }
    CallsFrame(t.node.log, s.node.log, s.node.handled);
  }

  lemma IdleOrder(s: State, e: Event)
    requires OrderInv(s) && Enabled(s, e) && e.Idle?
    ensures OrderInv(Next(s, e))
  {
    TakeAndProposeOrder(s, e.now, e.stamp, e.ok);
  }

  lemma OrderStep(s: State, e: Event, t: State)
    requires OrderInv(s) && Enabled(s, e) && t == Next(s, e)
    ensures OrderInv(t)
  {
    match e
    case Propose(_, _, _, _, _, _, _) => ProposeOrder(s, e);
    case ConfigChange(_, _, _, _) => ConfigChangeOrder(s, e);
    case Idle(_, _, _) => IdleOrder(s, e);
    case Replicate(entry) => ReplicateOrder(s, entry);
    case Truncate(length) => TruncateOrder(s, length);
    case Restore => RestoreOrder(s, t);
    case Commit(_) => CommitOrder(s, e);
  }

  lemma StartOrder(id: nat, size: nat, timeout: int, peers: set<nat>)
    requires size >= 1
    ensures OrderInv(Start(id, size, timeout, peers))
  {
    assert Flatten([]) == [];
  }

  lemma {:induction false} OrderRun(trace: seq<State>, events: seq<Event>, i: nat)
    requires IsRunFromStart(trace, events) && i < |trace|
    ensures OrderInv(trace[i])
  {
    if i > 0 {
      OrderRun(trace, events, i - 1);
      OrderStep(trace[i - 1], events[i - 1], trace[i]);
    } else {
      var id, size, timeout, peers :| size >= 1 && trace[0] == Start(id, size, timeout, peers);
      StartOrder(id, size, timeout, peers);
    }
  }

  /**
   In every state of every run, whatever the batch boundaries, timeouts, refused and returning
   proposals, foreign entries, snapshots and replies: the store has seen exactly the committed entries'
   proposals since the last snapshot; the accepted proposals are the batches in order followed by the
   queue; and each entry of this node holds exactly the items of its number.
   */
  lemma BatchingKeepsBatches(trace: seq<State>, events: seq<Event>, i: nat)
    requires IsRunFromStart(trace, events) && i < |trace|
    ensures |trace[i].node.queue.items| < trace[i].node.queue.size
    ensures trace[i].node.handled <= |trace[i].node.log|
    ensures trace[i].node.calls == trace[i].past.callsBefore + CallsOf(trace[i].node.log, 0, trace[i].node.handled)
    ensures trace[i].past.accepted == Flatten(trace[i].past.rounds) + trace[i].node.queue.items
    ensures LogInv(trace[i])
  {
    OrderRun(trace, events, i);
  }

  // ---------------------------------------------------------------------------------------------
  // First in, first out
  // ---------------------------------------------------------------------------------------------

  lemma DatasConcat(a: seq<Item>, b: seq<Item>)
    ensures Datas(a + b) == Datas(a) + Datas(b)
  {
  }

  ghost predicate OwnBatch(e: Entry) {
    e.own && e.body.Batch?
  }

  ghost predicate OwnIn(log: seq<Entry>, rounds: seq<Round>) {
    forall i :: 0 <= i < |log| && log[i].own ==> IsOwn(log[i], rounds)
  }

  /** The numbers of this node's batches among the first n entries, in log order. */
  ghost function BatchNums(log: seq<Entry>, n: nat): (nums: seq<nat>)
    requires n <= |log|
  {
    if n == 0 then [] else BatchNums(log, n - 1) + if OwnBatch(log[n - 1]) then [log[n - 1].num] else []
  }

  /** Their items, batch by batch. */
  ghost function OwnBatches(log: seq<Entry>, rounds: seq<Round>, n: nat): (batches: seq<seq<Item>>)
    requires OwnIn(log, rounds) && n <= |log|
  {
    if n == 0 then []
    else
      OwnBatches(log, rounds, n - 1)
      + if OwnBatch(log[n - 1]) then [RoundItems(rounds[log[n - 1].num])] else []
  }

  lemma {:induction false} OwnBatchesAreRounds(log: seq<Entry>, rounds: seq<Round>, n: nat)
    requires OwnIn(log, rounds) && n <= |log|
    ensures TakenBy(Blocks(rounds), BatchNums(log, n), OwnBatches(log, rounds, n))
  {
    if n > 0 {
      OwnBatchesAreRounds(log, rounds, n - 1);
      assert log[n - 1].own ==> IsOwn(log[n - 1], rounds);
    }
  }

  ghost function ItemsOf(e: Entry, rounds: seq<Round>): (items: seq<Item>)
    requires e.own ==> IsOwn(e, rounds)
  {
    if OwnBatch(e) then RoundItems(rounds[e.num]) else []
  }

  /** The items of this node's batches among the first n entries, in log order. */
  ghost function OwnItems(log: seq<Entry>, rounds: seq<Round>, n: nat): (items: seq<Item>)
    requires OwnIn(log, rounds) && n <= |log|
  {
    if n == 0 then [] else OwnItems(log, rounds, n - 1) + ItemsOf(log[n - 1], rounds)
  }

  /** The items of this node's committed batches are some of the accepted ones, in the order of their arrival. */
  ghost predicate CommitsAreFifo(s: State)
    requires OwnIn(s.node.log, s.past.rounds) && s.node.handled <= |s.node.log|
  {
    exists picks :: Selects(picks, OwnItems(s.node.log, s.past.rounds, s.node.handled), s.past.accepted)
  }

  /**
   In every run, the items of this node's committed batches are an in-order selection of the proposals
   it accepted if and only if the numbers of those batches go up.
   */
  lemma CommitsAreFifoIff(trace: seq<State>, events: seq<Event>, i: nat)
    requires IsRunFromStart(trace, events) && i < |trace|
    ensures OwnIn(trace[i].node.log, trace[i].past.rounds) && trace[i].node.handled <= |trace[i].node.log|
    ensures CommitsAreFifo(trace[i]) <==> Increasing(BatchNums(trace[i].node.log, trace[i].node.handled))
  {
    OrderRun(trace, events, i);
    FifoState(trace[i]);
  }

  lemma OwnBatchesNext(log: seq<Entry>, rounds: seq<Round>, n: nat)
    requires OwnIn(log, rounds) && n < |log|
    ensures Join(OwnBatches(log, rounds, n + 1)) == Join(OwnBatches(log, rounds, n)) + ItemsOf(log[n], rounds)
  {
    var before := OwnBatches(log, rounds, n);
    assert before + [] == before;
    JoinFrame(OwnBatches(log, rounds, n + 1), before, |before|);
  }

  lemma {:induction false} OwnItemsAreBatches(log: seq<Entry>, rounds: seq<Round>, n: nat)
    requires OwnIn(log, rounds) && n <= |log|
    ensures OwnItems(log, rounds, n) == Join(OwnBatches(log, rounds, n))
  {
    if n > 0 {
      OwnItemsAreBatches(log, rounds, n - 1);
      OwnBatchesNext(log, rounds, n - 1);
    }
  }

  lemma FifoState(s: State)
    requires OrderInv(s)
    ensures CommitsAreFifo(s) <==> Increasing(BatchNums(s.node.log, s.node.handled))
  {
    var n, past := s.node, s.past;
    OwnBatchesAreRounds(n.log, past.rounds, n.handled);
    OwnItemsAreBatches(n.log, past.rounds, n.handled);
    var nums, batches := BatchNums(n.log, n.handled), OwnBatches(n.log, past.rounds, n.handled);
    SelectedIff(Blocks(past.rounds), nums, batches, past.accepted);
  }

  ghost predicate OnlyOwn(log: seq<Entry>, n: nat)
    requires n <= |log|
  {
    forall i :: 0 <= i < n ==> log[i].own
  }

  lemma OwnEntryCalls(e: Entry, rounds: seq<Round>)
    requires e.own && IsOwn(e, rounds)
    ensures EntryCalls(e) == Datas(ItemsOf(e, rounds))
  {
    PackInOrder(ItemsOf(e, rounds));
  }

  ghost predicate CallsAre(calls: seq<Bytes>, items: seq<Item>) {
    |calls| == |items| && forall i :: 0 <= i < |calls| ==> calls[i] == items[i].data
  }

  lemma CallsAreConcat(calls: seq<Bytes>, more: seq<Bytes>, items: seq<Item>, next: seq<Item>)
    requires CallsAre(calls, items) && CallsAre(more, next)
    ensures CallsAre(calls + more, items + next)
  {
  }

  lemma OwnEntryCallsAre(e: Entry, rounds: seq<Round>)
    requires e.own && IsOwn(e, rounds)
    ensures CallsAre(EntryCalls(e), ItemsOf(e, rounds))
  {
    OwnEntryCalls(e, rounds);
  }

  lemma {:induction false} OwnCalls(log: seq<Entry>, rounds: seq<Round>, n: nat)
    requires OwnIn(log, rounds) && n <= |log| && OnlyOwn(log, n)
    ensures CallsAre(CallsOf(log, 0, n), OwnItems(log, rounds, n))
  {
    if n > 0 {
      OwnCalls(log, rounds, n - 1);
      OwnEntryCallsAre(log[n - 1], rounds);
      CallsAreConcat(
        CallsOf(log, 0, n - 1), EntryCalls(log[n - 1]),
        OwnItems(log, rounds, n - 1), ItemsOf(log[n - 1], rounds));
    }
  }

  lemma CallsAreDatas(calls: seq<Bytes>, items: seq<Item>)
    requires CallsAre(calls, items)
    ensures calls == Datas(items)
  {
  }

  /**
   With this node the only proposer, the store calls since the last snapshot are the items of its
   committed batches, refused and truncated batches left out; so they are in the order in which the
   clients' proposals arrived if and only if the numbers of the batches go up.
   */
  lemma CallsAreOwnItems(trace: seq<State>, events: seq<Event>, i: nat)
    requires IsRunFromStart(trace, events) && i < |trace|
    requires trace[i].node.handled <= |trace[i].node.log| && OnlyOwn(trace[i].node.log, trace[i].node.handled)
    ensures OwnIn(trace[i].node.log, trace[i].past.rounds)
    ensures
      var n, past := trace[i].node, trace[i].past;
      n.calls == past.callsBefore + Datas(OwnItems(n.log, past.rounds, n.handled))
  {
    OrderRun(trace, events, i);
    var n, past := trace[i].node, trace[i].past;
    OwnCalls(n.log, past.rounds, n.handled);
    CallsAreDatas(CallsOf(n.log, 0, n.handled), OwnItems(n.log, past.rounds, n.handled));
  }

  // ---------------------------------------------------------------------------------------------
  // When the numbers go up
  // ---------------------------------------------------------------------------------------------

  ghost predicate NumbersIncrease(log: seq<Entry>) {
    forall i, j :: 0 <= i < j < |log| && log[i].own && log[j].own ==> log[i].num < log[j].num
  }

  /** An event puts this node's entries out of order exactly when one returns behind a later one or itself. */
  lemma IncreasingStepIff(s: State, e: Event)
    requires OrderInv(s) && Enabled(s, e) && NumbersIncrease(s.node.log)
    ensures NumbersIncrease(Next(s, e).node.log) <==>
      (e.Replicate? && e.entry.own ==>
         forall i :: 0 <= i < |s.node.log| && s.node.log[i].own ==> s.node.log[i].num < e.entry.num)
  {
    if e.Replicate? {
      AppendIncreasing(s.node.log, e.entry);
    } else if e.Commit? {
      HandleCalls(s.node, e.canceled);
    } else {
      LogGrowsByNext(s.node, e);
    }
  }

  lemma AppendIncreasing(log: seq<Entry>, entry: Entry)
    requires NumbersIncrease(log)
    ensures NumbersIncrease(log + [entry]) <==>
      (entry.own ==> forall i :: 0 <= i < |log| && log[i].own ==> log[i].num < entry.num)
  {
    var all := log + [entry];
    assert all[|log|] == entry;
    if NumbersIncrease(all) && entry.own {
      forall i | 0 <= i < |log| && log[i].own ensures log[i].num < entry.num {
        assert all[i] == log[i];
      }
    }
  }

  /** Other events shorten the log or append an entry with a new number. */
  lemma LogGrowsByNext(n: Node, e: Event)
    requires NumbersIncrease(n.log) && !e.Replicate? && !e.Commit? && (e.Truncate? ==> e.length <= |n.log|)
    requires forall i :: 0 <= i < |n.log| && n.log[i].own ==> n.log[i].num < n.next
    ensures NumbersIncrease(NextNode(n, e).log)
  {
    var log := NextNode(n, e).log;
    if |log| > |n.log| {
      assert log == n.log + [log[|n.log|]] && log[|n.log|].num == n.next;
      AppendIncreasing(n.log, log[|n.log|]);
    }
  }

  /** So in every run without returning entries the numbers go up, and commits are first in, first out. */
  lemma {:induction false} DirectRunsIncrease(trace: seq<State>, events: seq<Event>, i: nat)
    requires IsRunFromStart(trace, events) && i < |trace|
    requires forall j {:trigger events[j]} :: 0 <= j < i && events[j].Replicate? ==> !events[j].entry.own
    ensures NumbersIncrease(trace[i].node.log) && trace[i].node.handled <= |trace[i].node.log|
    ensures OwnIn(trace[i].node.log, trace[i].past.rounds) && CommitsAreFifo(trace[i])
  {
    OrderRun(trace, events, i);
    if i > 0 {
      DirectRunsIncrease(trace, events, i - 1);
      OrderRun(trace, events, i - 1);
      IncreasingStepIff(trace[i - 1], events[i - 1]);
    }
    BatchNumsIncrease(trace[i].node.log, trace[i].node.handled, |trace[i].past.rounds|);
    FifoState(trace[i]);
  }

  lemma {:induction false} BatchNumsIncrease(log: seq<Entry>, n: nat, top: nat)
    requires NumbersIncrease(log) && n <= |log| && forall i :: 0 <= i < n && log[i].own ==> log[i].num < top
    ensures Increasing(BatchNums(log, n))
    ensures forall k :: 0 <= k < |BatchNums(log, n)| ==> BatchNums(log, n)[k] < top
    decreases n
  {
    if n > 0 {
      BatchNumsIncrease(log, n - 1, if log[n - 1].own then log[n - 1].num else top);
    }
  }

  lemma RunOn(trace: seq<State>, events: seq<Event>, e: Event) returns (longer: seq<State>, all: seq<Event>)
    requires IsRunFromStart(trace, events) && Enabled(trace[|events|], e)
    ensures IsRunFromStart(longer, all) && longer[|all|] == Next(trace[|events|], e)
  {
    longer, all := trace + [Next(trace[|events|], e)], events + [e];
    forall i {:trigger all[i]} | 0 <= i < |all|
      ensures Enabled(longer[i], all[i]) && longer[i + 1] == Next(longer[i], all[i])
    {
      if i < |events| {
        assert all[i] == events[i];
      }
    }
    assert longer[0] == trace[0];
  }

  lemma FullQueueLeaves(n: Node, item: Item)
    requires n.queue.items == [item] && n.queue.size == 1
    ensures BatchReady(n.queue, 0) && Taken(n.queue) == [item]
    ensures
      var r := TakeAndPropose(n, 0, 0, false);
      && r.queue.items == [] && r.queue.size == 1
      && r.quit == n.quit && r.log == n.log && r.handled == n.handled && r.calls == n.calls
  {
    TakeEmptiesQueue(n.queue, 0);
  }

  /** With batch size one a proposal gets a number at once, whether or not the library appends it. */
  lemma NumberedAtOnce(s: State, data: Bytes, chan: Chan)
    requires s.node.queue.items == [] && s.node.queue.size == 1 && !s.node.quit && chan !in s.past.received
    ensures
      var e := Propose(data, chan, true, false, 0, 0, false);
      && Enabled(s, e)
      && var t, item := Next(s, e), Item(data, chan);
      && t.node.queue.items == [] && t.node.queue.size == 1 && !t.node.quit
      && t.node.log == s.node.log && t.node.handled == s.node.handled && t.node.calls == s.node.calls
      && t.past.received == s.past.received + [chan] && t.past.accepted == s.past.accepted + [item]
      && t.past.rounds == s.past.rounds + [BatchRound([item])]
  {
    var item := Item(data, chan);
    var n := s.node.(queue := Added(s.node.queue, item));
    assert n.queue.items == [item];
    FullQueueLeaves(n, item);
    assert Next(s, Propose(data, chan, true, false, 0, 0, false)).node == TakeAndPropose(n, 0, 0, false);
  }

  /** A state without log in which these proposals were numbered, one by one. */
  ghost predicate Numbered(s: State, chans: seq<Chan>, items: seq<Item>, rounds: seq<Round>) {
    && s.node.queue.items == [] && s.node.queue.size == 1 && !s.node.quit
    && s.node.log == [] && s.node.handled == 0 && s.node.calls == []
    && s.past.received == chans && s.past.accepted == items && s.past.rounds == rounds
  }

  lemma NumberOneMore(
    trace: seq<State>, events: seq<Event>, chans: seq<Chan>, items: seq<Item>, rounds: seq<Round>, item: Item)
    returns (longer: seq<State>, all: seq<Event>)
    requires IsRunFromStart(trace, events) && Numbered(trace[|events|], chans, items, rounds) && item.chan !in chans
    ensures IsRunFromStart(longer, all)
    ensures Numbered(longer[|all|], chans + [item.chan], items + [item], rounds + [BatchRound([item])])
  {
    NumberedAtOnce(trace[|events|], item.data, item.chan);
    longer, all := RunOn(trace, events, Propose(item.data, item.chan, true, false, 0, 0, false));
  }

  lemma CommitOne(trace: seq<State>, events: seq<Event>) returns (longer: seq<State>, all: seq<Event>)
    requires IsRunFromStart(trace, events) && trace[|events|].node.handled < |trace[|events|].node.log|
    ensures IsRunFromStart(longer, all)
    ensures
      var s, t := trace[|events|], longer[|all|];
      && t.node.calls == s.node.calls + EntryCalls(s.node.log[s.node.handled])
      && t.node.log == s.node.log && t.node.handled == s.node.handled + 1 && t.past.accepted == s.past.accepted
  {
    HandleCalls(trace[|events|].node, {});
    longer, all := RunOn(trace, events, Commit({}));
  }

  lemma CommitTwo(trace: seq<State>, events: seq<Event>, e1: Entry, e2: Entry)
    returns (longer: seq<State>, all: seq<Event>)
    requires IsRunFromStart(trace, events)
    requires
      var n := trace[|events|].node;
      n.log == [e1, e2] && n.handled == 0 && n.calls == []
    ensures IsRunFromStart(longer, all)
    ensures longer[|all|].node.calls == EntryCalls(e1) + EntryCalls(e2)
    ensures longer[|all|].past.accepted == trace[|events|].past.accepted
  {
    longer, all := CommitOne(trace, events);
    longer, all := CommitOne(longer, all);
    assert [] + EntryCalls(e1) == EntryCalls(e1);
  }

  lemma TwoNumbered(i1: Item, i2: Item) returns (trace: seq<State>, events: seq<Event>)
    requires i1.chan != i2.chan
    ensures IsRunFromStart(trace, events)
    ensures Numbered(trace[|events|], [i1.chan, i2.chan], [i1, i2], [BatchRound([i1]), BatchRound([i2])])
  {
    trace, events := [Start(1, 1, 0, {})], [];
    assert IsRunFromStart(trace, events);
    trace, events := NumberOneMore(trace, events, [], [], [], i1);
    trace, events := NumberOneMore(trace, events, [i1.chan], [i1], [BatchRound([i1])], i2);
  }

  /** The second of two numbered proposals returns first. */
  lemma ReturnSwapped(trace: seq<State>, events: seq<Event>, i1: Item, i2: Item)
    returns (longer: seq<State>, all: seq<Event>)
    requires IsRunFromStart(trace, events)
    requires Numbered(trace[|events|], [i1.chan, i2.chan], [i1, i2], [BatchRound([i1]), BatchRound([i2])])
    ensures IsRunFromStart(longer, all)
    ensures
      var t := longer[|all|];
      && t.node.log == [Entry(true, 1, Batch(One(i2.data))), Entry(true, 0, Batch(One(i1.data)))]
      && t.node.handled == 0 && t.node.calls == [] && t.past.accepted == [i1, i2]
  {
    var e1, e2 := Entry(true, 0, Batch(One(i1.data))), Entry(true, 1, Batch(One(i2.data)));
    longer, all := RunOn(trace, events, Replicate(e2));
    longer, all := RunOn(longer, all, Replicate(e1));
  }

  /**
   Entries that return in another order are applied in that order: for any two proposals of two clients
   a run in which they are numbered but not appended by this node, and come back by replication the
   other way round.
   */
  lemma ReturningEntriesSwap(i1: Item, i2: Item) returns (trace: seq<State>, events: seq<Event>)
    requires i1.chan != i2.chan
    ensures IsRunFromStart(trace, events)
    ensures
      var s := trace[|events|];
      s.past.accepted == [i1, i2] && s.node.calls == [i2.data, i1.data]
  {
    trace, events := TwoNumbered(i1, i2);
    trace, events := ReturnSwapped(trace, events, i1, i2);
    var e1, e2 := Entry(true, 0, Batch(One(i1.data))), Entry(true, 1, Batch(One(i2.data)));
    trace, events := CommitTwo(trace, events, e2, e1);
  }

  /**
   When this node is the only proposer, its numbers go up and none was refused or truncated, the store
   calls since the last snapshot followed by those still in the log and the proposals still in the
   queue are the accepted proposals in arrival order.
   */
  lemma LossFreeRunIsFifo(trace: seq<State>, events: seq<Event>, i: nat)
    requires IsRunFromStart(trace, events) && i < |trace|
    requires
      var log := trace[i].node.log;
      OnlyOwn(log, |log|) && |log| == |trace[i].past.rounds| && NumbersIncrease(log)
    ensures trace[i].node.handled <= |trace[i].node.log|
    ensures
      var n, past := trace[i].node, trace[i].past;
      && |past.callsBefore| <= |n.calls|
      && n.calls[|past.callsBefore|..] + CallsOf(n.log, n.handled, |n.log|) + Datas(n.queue.items)
         == Datas(past.accepted)
  {
    OrderRun(trace, events, i);
    LossFreeState(trace[i]);
  }

  lemma {:induction false} OwnNumbersFrom(s: State, i: nat)
    requires LogInv(s) && OnlyOwn(s.node.log, |s.node.log|) && NumbersIncrease(s.node.log) && i < |s.node.log|
    ensures s.node.log[i].num >= i
  {
    if i > 0 {
      OwnNumbersFrom(s, i - 1);
    }
  }

  lemma {:induction false} OwnNumbersUpTo(s: State, i: nat)
    requires LogInv(s) && OnlyOwn(s.node.log, |s.node.log|) && NumbersIncrease(s.node.log)
    requires i < |s.node.log| <= |s.past.rounds|
    ensures s.node.log[i].num <= |s.past.rounds| - (|s.node.log| - i)
    decreases |s.node.log| - i
  {
    if i < |s.node.log| - 1 {
      OwnNumbersUpTo(s, i + 1);
    }
  }

  lemma OwnNumberIs(s: State, i: nat)
    requires LogInv(s) && OnlyOwn(s.node.log, |s.node.log|) && NumbersIncrease(s.node.log)
    requires |s.node.log| == |s.past.rounds| && i < |s.node.log|
    ensures s.node.log[i].num == i
    ensures ItemsOf(s.node.log[i], s.past.rounds) == RoundItems(s.past.rounds[i])
  {
    OwnNumbersFrom(s, i);
    OwnNumbersUpTo(s, i);
    assert IsOwn(s.node.log[i], s.past.rounds);
  }

  lemma {:induction false} OwnItemsAreAll(log: seq<Entry>, rounds: seq<Round>, blocks: seq<seq<Item>>, n: nat)
    requires OwnIn(log, rounds) && |log| == |blocks| && n <= |log|
    requires forall i :: 0 <= i < |log| ==> blocks[i] == ItemsOf(log[i], rounds)
    ensures OwnItems(log, rounds, n) == JoinTo(blocks, n)
  {
    if n > 0 {
      OwnItemsAreAll(log, rounds, blocks, n - 1);
    }
  }

  lemma {:induction false} CallsOfSplit(log: seq<Entry>, mid: nat, hi: nat)
    requires mid <= hi <= |log|
    ensures CallsOf(log, 0, mid) + CallsOf(log, mid, hi) == CallsOf(log, 0, hi)
    decreases hi
  {
    if mid < hi {
      CallsOfSplit(log, mid, hi - 1);
      Associative(CallsOf(log, 0, mid), CallsOf(log, mid, hi - 1), EntryCalls(log[hi - 1]));
    }
  }

  lemma LossFreeState(s: State)
    requires OrderInv(s) && OnlyOwn(s.node.log, |s.node.log|) && NumbersIncrease(s.node.log)
    requires |s.node.log| == |s.past.rounds|
    ensures |s.past.callsBefore| <= |s.node.calls|
    ensures
      var n, past := s.node, s.past;
      n.calls[|past.callsBefore|..] + CallsOf(n.log, n.handled, |n.log|) + Datas(n.queue.items) == Datas(past.accepted)
  {
    var log := s.node.log;
    assert s.node.calls[|s.past.callsBefore|..] == CallsOf(log, 0, s.node.handled);
    CallsOfSplit(log, s.node.handled, |log|);
    assert CallsOf(log, 0, |log|) == Datas(Flatten(s.past.rounds)) by {
      OwnCalls(log, s.past.rounds, |log|);
      CallsAreDatas(CallsOf(log, 0, |log|), OwnItems(log, s.past.rounds, |log|));
      forall i | 0 <= i < |log| ensures Blocks(s.past.rounds)[i] == ItemsOf(log[i], s.past.rounds) {
        OwnNumberIs(s, i);
      }
      OwnItemsAreAll(log, s.past.rounds, Blocks(s.past.rounds), |log|);
    }
    DatasConcat(Flatten(s.past.rounds), s.node.queue.items);
  }

  // ---------------------------------------------------------------------------------------------
  // Membership
  // ---------------------------------------------------------------------------------------------

  /** The peers a node with this id knows after the first n entries. */
  ghost function PeersOf(id: nat, initial: set<nat>, log: seq<Entry>, n: nat): (peers: set<nat>)
    requires n <= |log|
  {
    if n == 0 then initial
    else
      var before := PeersOf(id, initial, log, n - 1);
      match log[n - 1].body
      case Reconfigure(AddNode(p)) => before + {p}
      case Reconfigure(RemoveNode(p, _)) => if p == id then before else before - {p}
      case _ => before
  }

  /** One of the first n entries removes the node for good. */
  ghost predicate Expelled(id: nat, log: seq<Entry>, n: nat)
    requires n <= |log|
  {
    exists i :: 0 <= i < n && log[i].body == Reconfigure(RemoveNode(id, false))
  }

  lemma {:induction false} MembershipFrame(id: nat, initial: set<nat>, a: seq<Entry>, b: seq<Entry>, n: nat)
    requires n <= |a| && n <= |b| && forall i :: 0 <= i < n ==> a[i] == b[i]
    ensures PeersOf(id, initial, a, n) == PeersOf(id, initial, b, n)
    ensures Expelled(id, a, n) == Expelled(id, b, n)
  {
    if n > 0 {
      MembershipFrame(id, initial, a, b, n - 1);
    }
  }

  lemma HandleMembership(n: Node, canceled: set<Chan>)
    requires n.handled < |n.log|
    ensures
      var r, body := Handle(n, canceled), n.log[n.handled].body;
      && r.id == n.id
      && r.quit == (n.quit || body == Reconfigure(RemoveNode(n.id, false)))
      && r.peers ==
           match body {
             case Reconfigure(AddNode(p)) => n.peers + {p}
             case Reconfigure(RemoveNode(p, _)) => if p == n.id then n.peers else n.peers - {p}
             case _ => n.peers
           }
  {
    var e := n.log[n.handled];
    if e.body.Batch? {
      HandleNormalCalls(n.(handled := n.handled + 1), e.num, e.body.proposals, canceled);
    }
  }

  ghost predicate MemberInv(n: Node, id: nat, initial: set<nat>) {
    && n.id == id && n.handled <= |n.log|
    && n.peers == PeersOf(id, initial, n.log, n.handled)
    && n.quit == Expelled(id, n.log, n.handled)
  }

  lemma CommitMembership(n: Node, canceled: set<Chan>, id: nat, initial: set<nat>)
    requires MemberInv(n, id, initial) && n.handled < |n.log|
    ensures MemberInv(Handle(n, canceled), id, initial)
  {
    HandleMembership(n, canceled);
    HandleCalls(n, canceled);
  }

  /** No other event touches what was committed or what is believed. */
  lemma LogKeepsMembership(n: Node, m: Node, id: nat, initial: set<nat>)
    requires MemberInv(n, id, initial)
    requires m.id == n.id && m.handled == n.handled <= |m.log| && m.peers == n.peers && m.quit == n.quit
    requires forall i :: 0 <= i < n.handled ==> m.log[i] == n.log[i]
    ensures MemberInv(m, id, initial)
  {
    MembershipFrame(id, initial, n.log, m.log, n.handled);
  }

  lemma OtherEventsMembership(n: Node, e: Event, id: nat, initial: set<nat>)
    requires MemberInv(n, id, initial)
    requires !e.Commit? && !e.Restore? && (e.Truncate? ==> n.handled <= e.length <= |n.log|)
    ensures MemberInv(NextNode(n, e), id, initial)
  {
    LogKeepsMembership(n, NextNode(n, e), id, initial);
  }

  lemma RestoreMembership(n: Node, id: nat)
    requires n.id == id && !n.quit
    ensures MemberInv(Restored(n), id, n.peers)
  {
  }

  lemma MembershipStep(s: State, e: Event, t: State, id: nat)
    requires MemberInv(s.node, id, s.past.peersBefore) && Enabled(s, e) && t == Next(s, e)
    ensures MemberInv(t.node, id, t.past.peersBefore)
  {
    if e.Commit? {
      CommitMembership(s.node, e.canceled, id, s.past.peersBefore);
    } else if e.Restore? {
      RestoreMembership(s.node, id);
    } else {
      OtherEventsMembership(s.node, e, id, s.past.peersBefore);
    }
  }

  lemma {:induction false} MembershipRun(trace: seq<State>, events: seq<Event>, i: nat)
    requires IsRunFromStart(trace, events) && i < |trace|
    ensures MemberInv(trace[i].node, trace[0].node.id, trace[i].past.peersBefore)
  {
    if i > 0 {
      MembershipRun(trace, events, i - 1);
      MembershipStep(trace[i - 1], events[i - 1], trace[i], trace[0].node.id);
    }
  }

  /** What a node believes about the cluster depends on its log since the last snapshot alone. */
  lemma MembershipFollowsLog(trace: seq<State>, events: seq<Event>, i: nat)
    requires IsRunFromStart(trace, events) && i < |trace|
    ensures
      var n := trace[i].node;
      && n.id == trace[0].node.id && n.handled <= |n.log|
      && n.peers == PeersOf(n.id, trace[i].past.peersBefore, n.log, n.handled)
      && n.quit == Expelled(n.id, n.log, n.handled)
  {
    MembershipRun(trace, events, i);
  }

  // ---------------------------------------------------------------------------------------------
  // Each entry once
  // ---------------------------------------------------------------------------------------------

  /** How many of the events from the r-th up to but not including the i-th commit an entry. */
  ghost function CommitsIn(events: seq<Event>, r: nat, i: nat): (n: nat)
    requires r <= i <= |events|
    decreases i
  {
    if i == r then 0 else CommitsIn(events, r, i - 1) + if events[i - 1].Commit? then 1 else 0
  }

  /** How many of them can add an entry to the log. */
  ghost function AppendsIn(events: seq<Event>, r: nat, i: nat): (n: nat)
    requires r <= i <= |events|
    decreases i
  {
    if i == r then 0
    else
      AppendsIn(events, r, i - 1)
      + if events[i - 1].Replicate? || MayAppend(events[i - 1]) then 1 else 0
  }

  /** A snapshot was restored just before the r-th event, or the run began there. */
  ghost predicate Afresh(events: seq<Event>, r: nat) {
    r <= |events| && (r == 0 || events[r - 1].Restore?)
  }

  lemma {:induction false} AfreshLog(trace: seq<State>, events: seq<Event>, r: nat)
    requires IsRunFromStart(trace, events) && Afresh(events, r)
    ensures trace[r].node.log == [] && trace[r].node.handled == 0
  {
    if r > 0 {
      assert trace[r] == Next(trace[r - 1], events[r - 1]);
    }
  }

  /** The event that may add an entry of this node to the log. */
  ghost predicate MayAppend(e: Event) {
    e.Propose? || e.ConfigChange? || e.Idle?
  }

  /** What an event does to the log: a commit moves on by one entry and only a restored snapshot goes back. */
  ghost predicate MovesLog(n: Node, e: Event, m: Node) {
    match e
    case Replicate(entry) => m.log == n.log + [entry] && m.handled == n.handled
    case Truncate(length) => length <= |n.log| && m.log == n.log[..length] && m.handled == n.handled
    case Restore => m.log == [] && m.handled == 0
    case Commit(_) => m.log == n.log && m.handled == n.handled + 1
    case _ => n.log <= m.log && |m.log| <= |n.log| + 1 && m.handled == n.handled
  }

  lemma LogMoves(s: State, e: Event, t: State)
    requires Enabled(s, e) && t == Next(s, e)
    ensures MovesLog(s.node, e, t.node)
  {
    if e.Commit? {
      HandleCalls(s.node, e.canceled);
    }
  }

  /**
   In every run, every entry is applied once and none is left over from before a snapshot: since the last
   one as many entries were handled as commits happened, each being the next of the log, and the log
   is no longer than the appends since then.
   */
  lemma {:induction false} EntriesAreHandledOnce(trace: seq<State>, events: seq<Event>, r: nat, i: nat)
    requires IsRunFromStart(trace, events) && r <= i < |trace| && Afresh(events, r)
    requires forall k {:trigger events[k]} :: r <= k < i ==> !events[k].Restore?
    ensures trace[i].node.handled == CommitsIn(events, r, i)
    ensures |trace[i].node.log| <= AppendsIn(events, r, i)
    ensures i < |events| ==> MovesLog(trace[i].node, events[i], trace[i + 1].node)
    decreases i
  {
    if i < |events| {
      LogMoves(trace[i], events[i], trace[i + 1]);
    }
    if i == r {
      AfreshLog(trace, events, r);
    } else {
      EntriesAreHandledOnce(trace, events, r, i - 1);
    }
  }
}
