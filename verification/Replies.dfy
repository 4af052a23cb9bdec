/**
 Which client gets which reply. No run loses or duplicates a reply channel. Entries are matched to
 parked channels by sequence number alone, so that each result also reaches its own proposer holds in
 the runs where no foreign entry commits under a parked number.
 */
module Replies {
  import opened Basics
  import opened Batching
  import opened Driver
  import opened Selection

  /** The committing entry does not carry a parked number that another node put on it. */
  ghost predicate Uncontested(s: State, e: Event)
    requires Enabled(s, e)
  {
    e.Commit? ==>
      var entry := s.node.log[s.node.handled];
      entry.own || entry.body.Blank? || entry.num !in s.node.parked
  }

  ghost predicate IsUncontestedRun(trace: seq<State>, events: seq<Event>) {
    && IsRunFromStart(trace, events)
    && forall i {:trigger events[i]} :: 0 <= i < |events| ==> Uncontested(trace[i], events[i])
  }

  function ChansOf(c: ReplyChan): (r: seq<Chan>) {
    match c
    case OneChan(d) => [d]
    case MoreChans(ds) => ds
  }

  /** All channels parked under numbers below `bound`. */
  ghost function ParkedChans(parked: map<nat, ReplyChan>, bound: nat): (r: multiset<Chan>) {
    if bound == 0 then multiset{}
    else
      ParkedChans(parked, bound - 1)
      + (if bound - 1 in parked then multiset(ChansOf(parked[bound - 1])) else multiset{})
  }

  function AnswerChans(answers: seq<Answer>): (r: seq<Chan>)
    ensures |r| == |answers|
    ensures forall i :: 0 <= i < |answers| ==> r[i] == answers[i].chan
  {
    if answers == [] then [] else AnswerChans(answers[..|answers| - 1]) + [answers[|answers| - 1].chan]
  }

  ghost function RoundChans(r: Round): (c: ReplyChan) {
    match r
    case BatchRound(items) => PackChans(items)
    case ConfigRound(_, chan) => OneChan(chan)
  }

  /** What is parked under a number are the channels of what took that number. */
  ghost predicate ParkedInv(s: State) {
    && (forall k :: k in s.node.parked ==> k < |s.past.rounds| && s.node.parked[k] == RoundChans(s.past.rounds[k]))
    && (forall k :: k in s.node.parked ==> |ChansOf(s.node.parked[k])| > 0)
  }

  /** Where the channels of a node are. */
  ghost function Holding(n: Node): (r: multiset<Chan>) {
    multiset(Chans(n.queue.items)) + ParkedChans(n.parked, n.next)
    + multiset(AnswerChans(n.answers)) + multiset(n.dropped)
  }

  ghost predicate ChansInv(s: State) {
    multiset(s.past.received) == Holding(s.node) && Distinct(s.past.received)
  }

  /** Each store call that carried out a proposal of this node did so with an accepted item's own bytes. */
  ghost predicate CarriedInv(s: State) {
    AllCarried(s.past.carried, s.node.calls, s.past.accepted)
  }

  ghost predicate AllCarried(carried: seq<Option<Item>>, calls: seq<Bytes>, accepted: seq<Item>) {
    |carried| == |calls| && forall i :: 0 <= i < |carried| ==> Carried(carried[i], calls[i], accepted)
  }

  ghost predicate Carried(item: Option<Item>, call: Bytes, accepted: seq<Item>) {
    item.Some? ==> item.value.data == call && item.value in accepted
  }

  /** What holds in every run. */
  ghost predicate TableInv(s: State) {
    OrderInv(s) && ParkedInv(s) && ChansInv(s) && CarriedInv(s)
  }

  /** A result goes to the client whose own proposal that store call carried out. */
  ghost predicate Rightful(a: Answer, carried: seq<Option<Item>>) {
    a.response.Result? ==>
      a.response.call < |carried| && carried[a.response.call].Some? && carried[a.response.call].value.chan == a.chan
  }

  ghost predicate AllRightful(answers: seq<Answer>, carried: seq<Option<Item>>) {
    forall i :: 0 <= i < |answers| ==> Rightful(answers[i], carried)
  }

  ghost predicate AnswersInv(s: State) {
    AllRightful(s.node.answers, s.past.carried)
  }

  /** What holds in uncontested runs. */
  ghost predicate ReplyInv(s: State) {
    TableInv(s) && AnswersInv(s)
  }

  // ---------------------------------------------------------------------------------------------
  // Parking and freeing channels
  // ---------------------------------------------------------------------------------------------

  lemma {:induction false} ParkedFrame(a: map<nat, ReplyChan>, b: map<nat, ReplyChan>, bound: nat)
    requires forall k :: 0 <= k < bound ==> (k in a <==> k in b) && (k in a ==> a[k] == b[k])
    ensures ParkedChans(a, bound) == ParkedChans(b, bound)
  {
    if bound > 0 {
      ParkedFrame(a, b, bound - 1);
    }
  }

  lemma ParkedAdd(parked: map<nat, ReplyChan>, next: nat, c: ReplyChan)
    requires next !in parked
    ensures ParkedChans(parked[next := c], next + 1) == ParkedChans(parked, next) + multiset(ChansOf(c))
  {
    ParkedFrame(parked[next := c], parked, next);
  }

  lemma {:induction false} ParkedFree(parked: map<nat, ReplyChan>, bound: nat, k: nat)
    requires k in parked && k < bound
    ensures ParkedChans(parked, bound) == ParkedChans(parked - {k}, bound) + multiset(ChansOf(parked[k]))
  {
    if k == bound - 1 {
      ParkedFrame(parked - {k}, parked, k);
    } else {
      ParkedFree(parked, bound - 1, k);
    }
  }

  lemma AnswerChansConcat(a: seq<Answer>, b: seq<Answer>)
    ensures AnswerChans(a + b) == AnswerChans(a) + AnswerChans(b)
  {
  }

  lemma {:induction false} ReverseMultiset<T>(s: seq<T>)
    ensures multiset(Reverse(s)) == multiset(s)
  {
    if s != [] {
      ReverseMultiset(s[..|s| - 1]);
      assert s == s[..|s| - 1] + [s[|s| - 1]];
    }
  }

  lemma PackedChans(items: seq<Item>)
    ensures multiset(ChansOf(PackChans(items))) == multiset(Chans(items))
  {
    ReverseMultiset(Chans(items));
    assert |items| == 1 ==> Chans(items) == [items[0].chan];
  }

  // ---------------------------------------------------------------------------------------------
  // Answering a committed batch
  // ---------------------------------------------------------------------------------------------

  /** The answers to a batch whose first `apply` call has number `base`: each client gets its own result. */
  ghost function BatchAnswers(items: seq<Item>, base: nat, canceled: set<Chan>): (r: seq<Answer>) {
    if items == [] then []
    else
      (if items[0].chan in canceled then [] else [Answer(items[0].chan, Result(base))])
      + BatchAnswers(items[1..], base + 1, canceled)
  }

  ghost function BatchGone(items: seq<Item>, canceled: set<Chan>): (r: seq<Chan>) {
    if items == [] then []
    else (if items[0].chan in canceled then [items[0].chan] else []) + BatchGone(items[1..], canceled)
  }

  lemma {:induction false} ReversedTail<T>(s: seq<T>)
    requires s != []
    ensures Reverse(s)[|s| - 1] == s[0]
    ensures DropLast(Reverse(s)) == Reverse(s[1..])
  {
  }

  lemma {:induction false} AnswersCons(prefix: seq<Answer>, items: seq<Item>, base: nat, canceled: set<Chan>)
    requires items != []
    ensures
      var first := if items[0].chan in canceled then [] else [Answer(items[0].chan, Result(base))];
      prefix + BatchAnswers(items, base, canceled) == prefix + first + BatchAnswers(items[1..], base + 1, canceled)
  {
    var first := if items[0].chan in canceled then [] else [Answer(items[0].chan, Result(base))];
    Associative(prefix, first, BatchAnswers(items[1..], base + 1, canceled));
  }

  lemma {:induction false} GoneCons(prefix: seq<Chan>, items: seq<Item>, canceled: set<Chan>)
    requires items != []
    ensures
      var first := if items[0].chan in canceled then [items[0].chan] else [];
      prefix + BatchGone(items, canceled) == prefix + first + BatchGone(items[1..], canceled)
  {
    var first := if items[0].chan in canceled then [items[0].chan] else [];
    Associative(prefix, first, BatchGone(items[1..], canceled));
  }

  lemma {:induction false} DatasCons(prefix: seq<Bytes>, items: seq<Item>)
    requires items != []
    ensures prefix + [items[0].data] + Datas(items[1..]) == prefix + Datas(items)
  {
    assert Datas(items) == [items[0].data] + Datas(items[1..]);
  }

  lemma {:induction false} DrainFirst(n: Node, items: seq<Item>, canceled: set<Chan>)
    requires items != []
    ensures Drain(n, Reverse(Datas(items)), Reverse(Chans(items)), canceled)
      == Drain(ApplyOne(n, items[0].data, [items[0].chan], canceled),
               Reverse(Datas(items[1..])), Reverse(Chans(items[1..])), canceled)
  {
    assert Datas(items)[1..] == Datas(items[1..]);
    assert Chans(items)[1..] == Chans(items[1..]);
    ReversedTail(Datas(items));
    ReversedTail(Chans(items));
  }

  lemma {:induction false} ApplyFirst(n: Node, items: seq<Item>, canceled: set<Chan>)
    requires items != []
    ensures
      var m := ApplyOne(n, items[0].data, [items[0].chan], canceled);
      && m == n.(calls := m.calls, answers := m.answers, dropped := m.dropped)
      && m.calls + Datas(items[1..]) == n.calls + Datas(items)
      && m.answers + BatchAnswers(items[1..], |m.calls|, canceled)
         == n.answers + BatchAnswers(items, |n.calls|, canceled)
      && m.dropped + BatchGone(items[1..], canceled) == n.dropped + BatchGone(items, canceled)
  {
    var item := items[0];
    var m := ApplyOne(n, item.data, [item.chan], canceled);
    assert m.calls == n.calls + [item.data];
    assert m.answers == n.answers + if item.chan in canceled then [] else [Answer(item.chan, Result(|n.calls|))];
    assert m.dropped == n.dropped + if item.chan in canceled then [item.chan] else [];
    assert m.calls + Datas(items[1..]) == n.calls + Datas(items) by { DatasCons(n.calls, items); }
    assert m.answers + BatchAnswers(items[1..], |m.calls|, canceled)
        == n.answers + BatchAnswers(items, |n.calls|, canceled) by {
      AnswersCons(n.answers, items, |n.calls|, canceled);
    }
    assert m.dropped + BatchGone(items[1..], canceled) == n.dropped + BatchGone(items, canceled) by {
      GoneCons(n.dropped, items, canceled);
    }
  }

  lemma {:induction false} DrainItems(n: Node, items: seq<Item>, canceled: set<Chan>)
    ensures Drain(n, Reverse(Datas(items)), Reverse(Chans(items)), canceled)
      == n.(calls := n.calls + Datas(items),
            answers := n.answers + BatchAnswers(items, |n.calls|, canceled),
            dropped := n.dropped + BatchGone(items, canceled))
    decreases |items|
  {
    if items == [] {
      assert n.calls + Datas(items) == n.calls;
      assert n.answers + [] == n.answers;
    } else {
      var m := ApplyOne(n, items[0].data, [items[0].chan], canceled);
      ApplyFirst(n, items, canceled);
      DrainFirst(n, items, canceled);
      DrainItems(m, items[1..], canceled);
    }
  }

  lemma HandleOwnBatch(n: Node, num: nat, items: seq<Item>, canceled: set<Chan>)
    requires num in n.parked && n.parked[num] == PackChans(items) && |items| > 0
    ensures HandleNormal(n, num, Pack(items), canceled)
      == n.(parked := n.parked - {num},
            calls := n.calls + Datas(items),
            answers := n.answers + BatchAnswers(items, |n.calls|, canceled),
            dropped := n.dropped + BatchGone(items, canceled))
  {
    if |items| == 1 {
      assert Datas(items) == [items[0].data];
      assert BatchAnswers(items[1..], |n.calls| + 1, canceled) == [];
      assert BatchGone(items[1..], canceled) == [];
    } else {
      DrainItems(n.(parked := n.parked - {num}), items, canceled);
    }
  }

  lemma HandleOwnEntry(n: Node, items: seq<Item>, canceled: set<Chan>)
    requires n.handled < |n.log| && n.log[n.handled].body == Batch(Pack(items)) && |items| > 0
    requires n.log[n.handled].num in n.parked && n.parked[n.log[n.handled].num] == PackChans(items)
    ensures
      var r := Handle(n, canceled);
      && r.parked == n.parked - {n.log[n.handled].num}
      && r.calls == n.calls + Datas(items)
      && r.answers == n.answers + BatchAnswers(items, |n.calls|, canceled)
      && r.dropped == n.dropped + BatchGone(items, canceled)
  {
    var e, m := n.log[n.handled], n.(handled := n.handled + 1);
    HandleIsNormal(n, canceled);
    HandleOwnBatch(m, e.num, items, canceled);
  }

  lemma {:induction false} BatchAnswersOwn(items: seq<Item>, base: nat, canceled: set<Chan>, i: nat)
    requires i < |BatchAnswers(items, base, canceled)|
    ensures
      var a := BatchAnswers(items, base, canceled)[i];
      a.response.Result? && base <= a.response.call < base + |items| && items[a.response.call - base].chan == a.chan
    decreases |items|
  {
    if items[0].chan in canceled {
      BatchAnswersOwn(items[1..], base + 1, canceled, i);
    } else if i > 0 {
      BatchAnswersOwn(items[1..], base + 1, canceled, i - 1);
    }
  }

  // ---------------------------------------------------------------------------------------------
  // No step loses or invents a channel
  // ---------------------------------------------------------------------------------------------

  lemma DistinctAppend(s: seq<Chan>, c: Chan)
    requires Distinct(s) && c !in s
    ensures Distinct(s + [c])
  {
  }

  lemma SendKeepsChans(n: Node, chan: Chan, response: Response)
    ensures Holding(Send(n, chan, response)) == Holding(n) + multiset{chan}
  {
    AnswerChansConcat(n.answers, [Answer(chan, response)]);
    assert AnswerChans([Answer(chan, response)]) == [chan];
    MultisetOfAppend(AnswerChans(n.answers), [chan]);
  }

  /** A request turned away at once is answered at once. */
  lemma RejectTable(s: State, chan: Chan, response: Response)
    requires ParkedInv(s) && ChansInv(s) && chan !in s.past.received
    ensures
      var t := State(Send(s.node, chan, response), s.past.(received := s.past.received + [chan]));
      ParkedInv(t) && ChansInv(t)
  {
    SendKeepsChans(s.node, chan, response);
    DistinctAppend(s.past.received, chan);
  }

  lemma QueueingKeepsChans(n: Node, item: Item)
    ensures Holding(n.(queue := Added(n.queue, item))) == Holding(n) + multiset{item.chan}
  {
    assert Chans(n.queue.items + [item]) == Chans(n.queue.items) + [item.chan];
  }

  lemma AcceptTable(s: State, item: Item)
    requires ParkedInv(s) && ChansInv(s) && item.chan !in s.past.received
    ensures
      var t := State(s.node.(queue := Added(s.node.queue, item)),
                     s.past.(received := s.past.received + [item.chan], accepted := s.past.accepted + [item]));
      ParkedInv(t) && ChansInv(t)
  {
    DistinctAppend(s.past.received, item.chan);
    QueueingKeepsChans(s.node, item);
  }

  /** Taking a batch moves its channels from the queue to the table. */
  lemma TakeKeepsChans(n: Node, now: int, stamp: int, ok: bool)
    requires |n.queue.items| <= n.queue.size && n.next !in n.parked
    ensures Holding(TakeAndPropose(n, now, stamp, ok)) == Holding(n)
  {
    if BatchReady(n.queue, now) {
      TakeEmptiesQueue(n.queue, stamp);
      ParkedAdd(n.parked, n.next, PackChans(n.queue.items));
      PackedChans(n.queue.items);
    }
  }

  lemma TakeKeepsParked(s: State, now: int, stamp: int, ok: bool)
    requires |s.node.queue.items| <= s.node.queue.size
    requires s.node.next == |s.past.rounds| && ParkedInv(s)
    ensures ParkedInv(State(TakeAndPropose(s.node, now, stamp, ok),
                            s.past.(rounds := NextRounds(s.node, s.past.rounds, now))))
  {
    if BatchReady(s.node.queue, now) {
      TakeEmptiesQueue(s.node.queue, stamp);
      ParkedOneMore(
        s,
        State(TakeAndPropose(s.node, now, stamp, ok), s.past.(rounds := NextRounds(s.node, s.past.rounds, now))),
        BatchRound(s.node.queue.items));
    }
  }

  lemma TakeTable(s: State, now: int, stamp: int, ok: bool)
    requires |s.node.queue.items| <= s.node.queue.size
    requires s.node.next == |s.past.rounds| && ParkedInv(s) && ChansInv(s)
    ensures
      var t := State(TakeAndPropose(s.node, now, stamp, ok), s.past.(rounds := NextRounds(s.node, s.past.rounds, now)));
      ParkedInv(t) && ChansInv(t)
  {
    var t := State(TakeAndPropose(s.node, now, stamp, ok), s.past.(rounds := NextRounds(s.node, s.past.rounds, now)));
    assert ParkedInv(t) by { TakeKeepsParked(s, now, stamp, ok); }
    assert Holding(t.node) == Holding(s.node) by { TakeKeepsChans(s.node, now, stamp, ok); }
  }

  lemma ProposeTable(s: State, e: Event)
    requires TableInv(s) && Enabled(s, e) && e.Propose?
    ensures ParkedInv(Next(s, e)) && ChansInv(Next(s, e))
  {
    if !e.leader {
      RejectTable(s, e.chan, WrongLeader);
    } else if e.busy {
      RejectTable(s, e.chan, Busy);
    } else {
      var item := Item(e.data, e.chan);
      AcceptTable(s, item);
      TakeTable(State(s.node.(queue := Added(s.node.queue, item)),
                      s.past.(received := s.past.received + [e.chan], accepted := s.past.accepted + [item])),
                e.now, e.stamp, e.ok);
    }
  }

  /** Parking one more channel under the next number. */
  lemma ParkingOne(n: Node, m: Node, chan: Chan)
    requires n.next !in n.parked && m.queue == n.queue && m.answers == n.answers && m.dropped == n.dropped
    requires m.parked == n.parked[n.next := OneChan(chan)] && m.next == n.next + 1
    ensures Holding(m) == Holding(n) + multiset{chan}
  {
    ParkedAdd(n.parked, n.next, OneChan(chan));
  }

  lemma ConfigChangeTable(s: State, e: Event, t: State)
    requires ParkedInv(s) && ChansInv(s) && s.node.next == |s.past.rounds|
    requires e.ConfigChange? && e.chan !in s.past.received && t == State(NextNode(s.node, e), NextPast(s, e))
    ensures ParkedInv(t) && ChansInv(t)
  {
    if e.leader {
      DistinctAppend(s.past.received, e.chan);
      assert s.node.next !in s.node.parked;
      ParkingOne(s.node, t.node, e.chan);
      ParkedOneMore(s, t, ConfigRound(Addressed(s.node, e.change), e.chan));
    } else {
      RejectTable(s, e.chan, WrongLeader);
    }
  }

  lemma ParkedOneMore(s: State, t: State, round: Round)
    requires ParkedInv(s) && s.node.next == |s.past.rounds| && |ChansOf(RoundChans(round))| > 0
    requires t.past.rounds == s.past.rounds + [round]
    requires t.node.parked == s.node.parked[s.node.next := RoundChans(round)]
    ensures ParkedInv(t)
  {
  }

  lemma SameChans(n: Node, m: Node)
    requires n.queue == m.queue && n.parked == m.parked && n.next == m.next
    requires n.answers == m.answers && n.dropped == m.dropped
    ensures Holding(n) == Holding(m)
  {
  }

  lemma DroppingKeepsChans(n: Node, chans: seq<Chan>)
    ensures Holding(n.(dropped := n.dropped + chans)) == Holding(n) + multiset(chans)
  {
    MultisetOfAppend(n.dropped, chans);
  }

  /** The channel a single `apply` call settles: the last one waiting, if any. */
  function Served(waiting: seq<Chan>): (r: seq<Chan>) {
    if waiting == [] then [] else [waiting[|waiting| - 1]]
  }

  lemma ServedAndRest(waiting: seq<Chan>)
    ensures multiset(waiting) == multiset(Served(waiting)) + multiset(DropLast(waiting))
  {
    assert waiting == DropLast(waiting) + Served(waiting);
  }

  lemma ApplyKeepsChans(n: Node, data: Bytes, waiting: seq<Chan>, canceled: set<Chan>)
    ensures Holding(ApplyOne(n, data, waiting, canceled)) == Holding(n) + multiset(Served(waiting))
  {
    var applied := n.(calls := n.calls + [data]);
    SameChans(applied, n);
    if waiting != [] {
      if waiting[|waiting| - 1] in canceled {
        DroppingKeepsChans(applied, Served(waiting));
      } else {
        SendKeepsChans(applied, waiting[|waiting| - 1], Result(|n.calls|));
      }
    }
  }

  /** Draining settles every channel it was given, however many proposals there are. */
  lemma {:induction false} DrainKeepsChans(n: Node, datas: seq<Bytes>, chans: seq<Chan>, canceled: set<Chan>)
    ensures Holding(Drain(n, datas, chans, canceled)) == Holding(n) + multiset(chans)
    decreases |datas|
  {
    if datas != [] {
      var last := datas[|datas| - 1];
      ApplyKeepsChans(n, last, chans, canceled);
      ServedAndRest(chans);
      DrainKeepsChans(ApplyOne(n, last, chans, canceled), DropLast(datas), DropLast(chans), canceled);
    }
  }

  /** Whoever is parked under a number, if anybody. */
  ghost function ParkedUnder(n: Node, num: nat): (c: ReplyChan) {
    if num in n.parked then n.parked[num] else MoreChans([])
  }

  lemma FreeingKeepsChans(n: Node, num: nat)
    requires num in n.parked ==> num < n.next
    ensures Holding(n.(parked := n.parked - {num})) + multiset(ChansOf(ParkedUnder(n, num))) == Holding(n)
  {
    if num in n.parked {
      ParkedFree(n.parked, n.next, num);
    } else {
      assert n.(parked := n.parked - {num}) == n;
    }
  }

  /** Applying a payload to whoever is parked for it; channels of the wrong shape are dropped. */
  ghost function Settled(m: Node, c: ReplyChan, p: Proposals, canceled: set<Chan>): (r: Node) {
    var fits := p.One? == c.OneChan?;
    var given := if fits then m else m.(dropped := m.dropped + ChansOf(c));
    var waiting := if fits then ChansOf(c) else [];
    if p.One? then ApplyOne(given, p.data, waiting, canceled) else Drain(given, p.datas, waiting, canceled)
  }

  lemma HandleNormalSettles(n: Node, num: nat, p: Proposals, canceled: set<Chan>)
    ensures
      var m := n.(parked := n.parked - {num});
      HandleNormal(n, num, p, canceled) == Settled(m, ParkedUnder(n, num), p, canceled)
  {
    assert n.dropped + [] == n.dropped;
  }

  lemma SettlingKeepsChans(m: Node, c: ReplyChan, p: Proposals, canceled: set<Chan>)
    ensures Holding(Settled(m, c, p, canceled)) == Holding(m) + multiset(ChansOf(c))
  {
    var fits := p.One? == c.OneChan?;
    var given := if fits then m else m.(dropped := m.dropped + ChansOf(c));
    var waiting := if fits then ChansOf(c) else [];
    DroppingKeepsChans(m, ChansOf(c));
    if p.One? {
      ApplyKeepsChans(given, p.data, waiting, canceled);
    } else {
      DrainKeepsChans(given, p.datas, waiting, canceled);
    }
  }

  lemma HandleNormalKeepsChans(n: Node, num: nat, p: Proposals, canceled: set<Chan>)
    requires num in n.parked ==> num < n.next
    ensures Holding(HandleNormal(n, num, p, canceled)) == Holding(n)
  {
    HandleNormalSettles(n, num, p, canceled);
    SettlingKeepsChans(n.(parked := n.parked - {num}), ParkedUnder(n, num), p, canceled);
    FreeingKeepsChans(n, num);
  }

  /** What a configuration change settles its client with, knowing these peers before. */
  ghost function ChangeResponse(change: Change, peers: set<nat>): (r: Response) {
    match change
    case AddNode(id) => Joined(id, peers + {id})
    case RemoveNode(_, _) => Done
    case OtherChange(_) => Unimplemented
  }

  /** A configuration change settles what is parked under its number. */
  lemma ConfigSettles(n: Node, num: nat, change: Change) returns (response: Response)
    ensures response == ChangeResponse(change, n.peers)
    ensures
      var r := HandleConfigChange(n, num, change);
      r == n.(peers := r.peers, quit := r.quit,
              parked := n.parked - {num},
              answers := n.answers
                + if num in n.parked && n.parked[num].OneChan? then [Answer(n.parked[num].chan, response)] else [],
              dropped := n.dropped + if num in n.parked && n.parked[num].MoreChans? then n.parked[num].chans else [])
  {
    response := ChangeResponse(change, n.peers);
    assert n.answers + [] == n.answers && n.dropped + [] == n.dropped;
    assert num !in n.parked ==> n.parked - {num} == n.parked;
  }

  /** Freeing a number and answering or dropping whoever was parked under it keeps every channel. */
  lemma FreedAndSettled(n: Node, r: Node, num: nat, response: Response)
    requires num in n.parked ==> num < n.next
    requires r.queue == n.queue && r.next == n.next && r.parked == n.parked - {num}
    requires r.answers == n.answers
      + if num in n.parked && n.parked[num].OneChan? then [Answer(n.parked[num].chan, response)] else []
    requires r.dropped == n.dropped + if num in n.parked && n.parked[num].MoreChans? then n.parked[num].chans else []
    ensures Holding(r) == Holding(n)
  {
    var freed := n.(parked := n.parked - {num});
    FreeingKeepsChans(n, num);
    if num in n.parked && n.parked[num].OneChan? {
      SendKeepsChans(freed, n.parked[num].chan, response);
      SameChans(r, Send(freed, n.parked[num].chan, response));
    } else {
      var chans := if num in n.parked then n.parked[num].chans else [];
      DroppingKeepsChans(freed, chans);
      assert n.answers + [] == n.answers;
      SameChans(r, freed.(dropped := n.dropped + chans));
    }
  }

  lemma HandleConfigKeepsChans(n: Node, num: nat, change: Change)
    requires num in n.parked ==> num < n.next
    ensures Holding(HandleConfigChange(n, num, change)) == Holding(n)
  {
    var response := ConfigSettles(n, num, change);
    FreedAndSettled(n, HandleConfigChange(n, num, change), num, response);
  }

  /** A committed entry, whoever proposed it, frees its number and keeps every channel. */
  lemma HandleKeepsChans(n: Node, canceled: set<Chan>)
    requires n.handled < |n.log|
    requires n.log[n.handled].num in n.parked ==> n.log[n.handled].num < n.next
    ensures Holding(Handle(n, canceled)) == Holding(n)
  {
    var e, m := n.log[n.handled], n.(handled := n.handled + 1);
    SameChans(m, n);
    match e.body
    case Blank =>
    case Batch(p) =>
      HandleIsNormal(n, canceled);
      HandleNormalKeepsChans(m, e.num, p, canceled);
    case Reconfigure(c) =>
      HandleIsConfigChange(n, canceled);
      HandleConfigKeepsChans(m, e.num, c);
  }

  lemma HandleFrees(n: Node, canceled: set<Chan>)
    requires n.handled < |n.log|
    ensures
      var e := n.log[n.handled];
      Handle(n, canceled).parked == if e.body.Blank? then n.parked else n.parked - {e.num}
  {
    var e, m := n.log[n.handled], n.(handled := n.handled + 1);
    assert e.num !in n.parked ==> n.parked - {e.num} == n.parked;
    if e.body.Batch? {
      HandleNormalCalls(m, e.num, e.body.proposals, canceled);
    }
  }

  lemma CommitTable(s: State, e: Event)
    requires TableInv(s) && Enabled(s, e) && e.Commit?
    ensures ParkedInv(Next(s, e)) && ChansInv(Next(s, e))
  {
    assert Next(s, e).node == Handle(s.node, e.canceled);
    HandleFrees(s.node, e.canceled);
    HandleKeepsChans(s.node, e.canceled);
  }

  lemma AllCarriedConcat(
    a: seq<Option<Item>>, b: seq<Option<Item>>, calls: seq<Bytes>, more: seq<Bytes>, accepted: seq<Item>)
    requires AllCarried(a, calls, accepted) && AllCarried(b, more, accepted)
    ensures AllCarried(a + b, calls + more, accepted)
  {
  }

  lemma AllCarriedIn(carried: seq<Option<Item>>, calls: seq<Bytes>, some: seq<Item>, accepted: seq<Item>)
    requires AllCarried(carried, calls, some) && some <= accepted
    ensures AllCarried(carried, calls, accepted)
  {
    forall i | 0 <= i < |carried| ensures Carried(carried[i], calls[i], accepted) {
      assert Carried(carried[i], calls[i], some);
    }
  }

  lemma RoundIsCarried(rounds: seq<Round>, k: nat)
    requires k < |rounds|
    ensures AllCarried(Somes(RoundItems(rounds[k])), Datas(RoundItems(rounds[k])), Flatten(rounds))
  {
    var items := RoundItems(rounds[k]);
    forall i | 0 <= i < |items| ensures Carried(Some(items[i]), items[i].data, Flatten(rounds)) {
      assert items[i] in items;
      FlattenHolds(rounds, k, items[i]);
    }
  }

  lemma EntryIsCarried(e: Entry, rounds: seq<Round>)
    ensures AllCarried(CarriedBy(e, rounds), EntryCalls(e), Flatten(rounds))
  {
    if e.body.Batch? && e.own && IsOwn(e, rounds) {
      PackInOrder(RoundItems(rounds[e.num]));
      RoundIsCarried(rounds, e.num);
    }
  }

  lemma CarriedCommit(s: State, t: State, e: Entry)
    requires CarriedInv(s) && t.past.accepted == s.past.accepted && Flatten(s.past.rounds) <= s.past.accepted
    requires t.past.carried == s.past.carried + CarriedBy(e, s.past.rounds)
    requires t.node.calls == s.node.calls + EntryCalls(e)
    ensures CarriedInv(t)
  {
    var more, calls := CarriedBy(e, s.past.rounds), EntryCalls(e);
    EntryIsCarried(e, s.past.rounds);
    AllCarriedIn(more, calls, Flatten(s.past.rounds), s.past.accepted);
    AllCarriedConcat(s.past.carried, more, s.node.calls, calls, s.past.accepted);
  }

  lemma CarriedStep(s: State, e: Event)
    requires TableInv(s) && Enabled(s, e)
    ensures CarriedInv(Next(s, e))
  {
    if e.Commit? {
      HandleCalls(s.node, e.canceled);
      CarriedCommit(s, Next(s, e), s.node.log[s.node.handled]);
    } else {
      OtherEventsCall(s, e);
      CarriedStays(s, Next(s, e));
    }
  }

  lemma CarriedStays(s: State, t: State)
    requires CarriedInv(s) && t.node.calls == s.node.calls && t.past.carried == s.past.carried
    requires s.past.accepted <= t.past.accepted
    ensures CarriedInv(t)
  {
    AllCarriedIn(s.past.carried, s.node.calls, s.past.accepted, t.past.accepted);
  }

  lemma OtherEventsCall(s: State, e: Event)
    requires Enabled(s, e) && !e.Commit?
    ensures
      var t := Next(s, e);
      t.node.calls == s.node.calls && t.past.carried == s.past.carried && s.past.accepted <= t.past.accepted
  {
  }

  lemma TableStep(s: State, e: Event, t: State)
    requires TableInv(s) && Enabled(s, e) && t == Next(s, e)
    ensures TableInv(t)
  {
    OrderStep(s, e, t);
    CarriedStep(s, e);
    match e
    case Propose(_, _, _, _, _, _, _) => ProposeTable(s, e);
    case ConfigChange(_, _, _, _) => ConfigChangeTable(s, e, Next(s, e));
    case Idle(now, stamp, ok) => TakeTable(s, now, stamp, ok);
    case Replicate(_) => assert Holding(Next(s, e).node) == Holding(s.node);
    case Truncate(_) => assert Holding(Next(s, e).node) == Holding(s.node);
    case Restore => assert Holding(Next(s, e).node) == Holding(s.node);
    case Commit(_) => CommitTable(s, e);
  }

  lemma StartTable(id: nat, size: nat, timeout: int, peers: set<nat>)
    requires size >= 1
    ensures TableInv(Start(id, size, timeout, peers))
  {
    StartOrder(id, size, timeout, peers);
  }

  lemma {:induction false} TableRun(trace: seq<State>, events: seq<Event>, i: nat)
    requires IsRunFromStart(trace, events) && i < |trace|
    ensures TableInv(trace[i])
  {
    if i > 0 {
      TableRun(trace, events, i - 1);
      TableStep(trace[i - 1], events[i - 1], trace[i]);
    } else {
      var id, size, timeout, peers :| size >= 1 && trace[0] == Start(id, size, timeout, peers);
      StartTable(id, size, timeout, peers);
    }
  }

  // ---------------------------------------------------------------------------------------------
  // In uncontested runs every result goes to its proposer
  // ---------------------------------------------------------------------------------------------

  lemma MoreRightful(answers: seq<Answer>, more: seq<Answer>, carried: seq<Option<Item>>, newly: seq<Option<Item>>)
    requires AllRightful(answers, carried) && AllRightful(more, carried + newly)
    ensures AllRightful(answers + more, carried + newly)
  {
  }

  /** The answers to a committed batch are the results of its own proposals. */
  lemma BatchAnswersRightful(items: seq<Item>, carried: seq<Option<Item>>, canceled: set<Chan>)
    ensures AllRightful(BatchAnswers(items, |carried|, canceled), carried + Somes(items))
  {
    var added := BatchAnswers(items, |carried|, canceled);
    forall i | 0 <= i < |added| ensures Rightful(added[i], carried + Somes(items)) {
      BatchAnswersOwn(items, |carried|, canceled, i);
    }
  }

  /** An own entry that commits while its clients are parked answers them in order. */
  lemma OwnCommit(s: State, canceled: set<Chan>)
    requires LogInv(s) && ParkedInv(s) && s.node.handled < |s.node.log|
    requires OwnBatch(s.node.log[s.node.handled]) && s.node.log[s.node.handled].num in s.node.parked
    ensures
      var n, m := s.node, Handle(s.node, canceled);
      var num := n.log[n.handled].num;
      && num < |s.past.rounds| && s.past.rounds[num].BatchRound?
      && var items := s.past.rounds[num].items;
      && m.calls == n.calls + Datas(items)
      && m.answers == n.answers + BatchAnswers(items, |n.calls|, canceled)
      && m.dropped == n.dropped + BatchGone(items, canceled)
  {
    var entry := s.node.log[s.node.handled];
    assert IsOwn(entry, s.past.rounds);
    HandleOwnEntry(s.node, s.past.rounds[entry.num].items, canceled);
  }

  lemma CommitBatchAnswers(s: State, t: State, items: seq<Item>, canceled: set<Chan>)
    requires AnswersInv(s) && |s.past.carried| == |s.node.calls|
    requires t.node.answers == s.node.answers + BatchAnswers(items, |s.node.calls|, canceled)
    requires t.past.carried == s.past.carried + Somes(items)
    ensures AnswersInv(t)
  {
    BatchAnswersRightful(items, s.past.carried, canceled);
    MoreRightful(s.node.answers, BatchAnswers(items, |s.node.calls|, canceled), s.past.carried, Somes(items));
  }

  /** Nobody new is answered with a result. */
  lemma AnswersStay(s: State, t: State, more: seq<Answer>)
    requires AnswersInv(s) && s.past.carried <= t.past.carried && t.node.answers == s.node.answers + more
    requires forall i :: 0 <= i < |more| ==> !more[i].response.Result?
    ensures AnswersInv(t)
  {
  }

  lemma {:induction false} DrainUnwaited(n: Node, datas: seq<Bytes>, canceled: set<Chan>)
    ensures Drain(n, datas, [], canceled) == n.(calls := n.calls + Reverse(datas))
    decreases |datas|
  {
    if datas == [] {
      assert n.calls + Reverse(datas) == n.calls;
      assert n.dropped + [] == n.dropped;
    } else {
      var last := datas[|datas| - 1];
      DrainUnwaited(n.(calls := n.calls + [last]), DropLast(datas), canceled);
      assert n.calls + [last] + Reverse(DropLast(datas)) == n.calls + Reverse(datas);
    }
  }

  /** An entry whose number is not parked, or a blank one, touches no channel. */
  lemma HandleUnparked(n: Node, canceled: set<Chan>)
    requires n.handled < |n.log|
    requires n.log[n.handled].body.Blank? || n.log[n.handled].num !in n.parked
    ensures
      var r := Handle(n, canceled);
      r.answers == n.answers && r.dropped == n.dropped && r.parked == n.parked
  {
    var e := n.log[n.handled];
    if e.body.Batch? {
      assert n.parked - {e.num} == n.parked;
      if e.body.proposals.More? {
        DrainUnwaited(n.(handled := n.handled + 1), e.body.proposals.datas, canceled);
      }
    }
  }

  lemma ConfigAnswers(s: State, t: State, n: Node, num: nat, change: Change)
    requires AnswersInv(s) && n.answers == s.node.answers
    requires t.node.answers == HandleConfigChange(n, num, change).answers
    requires t.past.carried == s.past.carried
    ensures AnswersInv(t)
  {
    var response := ConfigSettles(n, num, change);
    var more := if num in n.parked && n.parked[num].OneChan? then [Answer(n.parked[num].chan, response)] else [];
    AnswersStay(s, t, more);
  }

  lemma {:induction false} OwnBatchAnswers(s: State, t: State, canceled: set<Chan>)
    requires TableInv(s) && AnswersInv(s) && s.node.handled < |s.node.log|
    requires OwnBatch(s.node.log[s.node.handled]) && s.node.log[s.node.handled].num in s.node.parked
    requires t.node.answers == Handle(s.node, canceled).answers
    requires t.past.carried == s.past.carried + CarriedBy(s.node.log[s.node.handled], s.past.rounds)
    ensures AnswersInv(t)
  {
    var entry := s.node.log[s.node.handled];
    assert IsOwn(entry, s.past.rounds);
    OwnCommit(s, canceled);
    CommitBatchAnswers(s, t, s.past.rounds[entry.num].items, canceled);
  }

  lemma CommitConfigAnswers(s: State, canceled: set<Chan>, t: State)
    requires AnswersInv(s) && s.node.handled < |s.node.log| && s.node.log[s.node.handled].body.Reconfigure?
    requires t.node.answers == Handle(s.node, canceled).answers && t.past.carried == s.past.carried
    ensures AnswersInv(t)
  {
    var entry := s.node.log[s.node.handled];
    HandleIsConfigChange(s.node, canceled);
    ConfigAnswers(s, t, s.node.(handled := s.node.handled + 1), entry.num, entry.body.change);
  }

  lemma CommitUnparkedAnswers(s: State, canceled: set<Chan>, t: State)
    requires AnswersInv(s) && s.node.handled < |s.node.log|
    requires s.node.log[s.node.handled].body.Blank? || s.node.log[s.node.handled].num !in s.node.parked
    requires t.node.answers == Handle(s.node, canceled).answers && s.past.carried <= t.past.carried
    ensures AnswersInv(t)
  {
    HandleUnparked(s.node, canceled);
    assert s.node.answers + [] == s.node.answers;
    AnswersStay(s, t, []);
  }

  lemma CommitAnswers(s: State, canceled: set<Chan>, t: State)
    requires TableInv(s) && AnswersInv(s) && s.node.handled < |s.node.log| && Uncontested(s, Commit(canceled))
    requires t.node.answers == Handle(s.node, canceled).answers
    requires t.past.carried == s.past.carried + CarriedBy(s.node.log[s.node.handled], s.past.rounds)
    ensures AnswersInv(t)
  {
    var entry := s.node.log[s.node.handled];
    if entry.body.Reconfigure? {
      assert s.past.carried + [] == s.past.carried;
      CommitConfigAnswers(s, canceled, t);
    } else if OwnBatch(entry) && entry.num in s.node.parked {
      OwnBatchAnswers(s, t, canceled);
    } else {
      CommitUnparkedAnswers(s, canceled, t);
    }
  }

  /** Other events answer only requests they turn away. */
  lemma OtherEventsAnswers(s: State, e: Event, t: State)
    requires AnswersInv(s) && Enabled(s, e) && !e.Commit? && t == Next(s, e)
    ensures AnswersInv(t)
  {
    OtherEventsCall(s, e);
    var more := OtherEventsSend(s.node, e);
    AnswersStay(s, t, more);
  }

  lemma OtherEventsSend(n: Node, e: Event) returns (more: seq<Answer>)
    requires !e.Commit? && (e.Truncate? ==> e.length <= |n.log|)
    ensures NextNode(n, e).answers == n.answers + more
    ensures forall i :: 0 <= i < |more| ==> !more[i].response.Result?
  {
    var turned := (e.Propose? && (!e.leader || e.busy)) || (e.ConfigChange? && !e.leader);
    more := if turned then [Answer(e.chan, if e.leader then Busy else WrongLeader)] else [];
    assert n.answers + [] == n.answers;
  }

  lemma AnswersStep(s: State, e: Event, t: State)
    requires TableInv(s) && AnswersInv(s) && Enabled(s, e) && Uncontested(s, e) && t == Next(s, e)
    ensures AnswersInv(t)
  {
    if e.Commit? {
      CommitAnswers(s, e.canceled, t);
    } else {
      OtherEventsAnswers(s, e, t);
    }
  }

  lemma ReplyStep(s: State, e: Event, t: State)
    requires ReplyInv(s) && Enabled(s, e) && Uncontested(s, e) && t == Next(s, e)
    ensures ReplyInv(t)
  {
    TableStep(s, e, t);
    AnswersStep(s, e, t);
  }

  lemma StartAnswers(id: nat, size: nat, timeout: int, peers: set<nat>)
    ensures AnswersInv(Start(id, size, timeout, peers))
  {
  }

  lemma {:induction false} AnswersRun(trace: seq<State>, events: seq<Event>, i: nat)
    requires IsUncontestedRun(trace, events) && i < |trace|
    ensures AnswersInv(trace[i])
  {
    if i == 0 {
      var id, size, timeout, peers :| size >= 1 && trace[0] == Start(id, size, timeout, peers);
      StartAnswers(id, size, timeout, peers);
    } else {
      AnswersRun(trace, events, i - 1);
      assert TableInv(trace[i - 1]) by { TableRun(trace, events, i - 1); }
      AnswersStep(trace[i - 1], events[i - 1], trace[i]);
    }
  }

  lemma ReplyRun(trace: seq<State>, events: seq<Event>, i: nat)
    requires IsUncontestedRun(trace, events) && i < |trace|
    ensures ReplyInv(trace[i])
  {
    TableRun(trace, events, i);
    AnswersRun(trace, events, i);
  }

  // ---------------------------------------------------------------------------------------------
  // Theorems
  // ---------------------------------------------------------------------------------------------

  /** In every run, each channel received so far is in exactly one place, once; no other channel is anywhere. */
  lemma EveryChannelInOnePlace(trace: seq<State>, events: seq<Event>, i: nat, c: Chan)
    requires IsRunFromStart(trace, events) && i < |trace|
    ensures
      var n := trace[i].node;
      multiset(Chans(n.queue.items))[c] + ParkedChans(n.parked, n.next)[c]
      + multiset(AnswerChans(n.answers))[c] + multiset(n.dropped)[c]
      == if c in trace[i].past.received then 1 else 0
  {
    TableRun(trace, events, i);
    assert multiset(trace[i].past.received)[c] == Holding(trace[i].node)[c];
  }

  /** A result is only sent to the client whose own proposal, and no equal one, that `apply` call carried out. */
  lemma ResultsGoToTheirProposers(trace: seq<State>, events: seq<Event>, i: nat, k: nat)
    requires IsUncontestedRun(trace, events) && i < |trace|
    requires k < |trace[i].node.answers| && trace[i].node.answers[k].response.Result?
    ensures
      var n, past := trace[i].node, trace[i].past;
      var a := n.answers[k];
      && a.response.call < |n.calls| == |past.carried| && past.carried[a.response.call].Some?
      && var item := past.carried[a.response.call].value;
      item in past.accepted && item.chan == a.chan && item.data == n.calls[a.response.call]
  {
    ReplyRun(trace, events, i);
    var n, past := trace[i].node, trace[i].past;
    assert Rightful(n.answers[k], past.carried);
    var call := n.answers[k].response.call;
    assert Carried(past.carried[call], n.calls[call], past.accepted);
  }

  /** In every run, parked numbers are below the next one and hold the channels of what took the number. */
  lemma ParkedShapesMatch(trace: seq<State>, events: seq<Event>, i: nat, k: nat)
    requires IsRunFromStart(trace, events) && i < |trace| && k in trace[i].node.parked
    ensures k < trace[i].node.next == |trace[i].past.rounds|
    ensures trace[i].node.parked[k] == RoundChans(trace[i].past.rounds[k])
  {
    TableRun(trace, events, i);
  }

  /** A number is in the table from when it is given out until an entry with it commits. */
  ghost predicate Settles(s: State, e: Event, k: nat)
    requires Enabled(s, e)
  {
    e.Commit? && !s.node.log[s.node.handled].body.Blank? && s.node.log[s.node.handled].num == k && k < s.node.next
  }

  lemma OtherEventsPark(n: Node, e: Event, k: nat)
    requires !e.Commit? && (e.Truncate? ==> e.length <= |n.log|)
    ensures n.next <= NextNode(n, e).next
    ensures k in NextNode(n, e).parked <==> k in n.parked || n.next <= k < NextNode(n, e).next
  {
  }

  lemma ParkedStep(s: State, e: Event, k: nat)
    requires TableInv(s) && Enabled(s, e)
    ensures
      var n, m := s.node, Next(s, e).node;
      && n.next <= m.next
      && (k in m.parked <==> (k in n.parked || n.next <= k < m.next) && !Settles(s, e, k))
  {
    if e.Commit? {
      HandleFrees(s.node, e.canceled);
      HandleCalls(s.node, e.canceled);
    } else {
      OtherEventsPark(s.node, e, k);
    }
  }

  lemma ParkedAcross(trace: seq<State>, events: seq<Event>, i: nat, k: nat)
    requires IsRunFromStart(trace, events) && i < |events|
    ensures trace[i].node.next <= trace[i + 1].node.next
    ensures k in trace[i + 1].node.parked <==>
      && (k in trace[i].node.parked || trace[i].node.next <= k < trace[i + 1].node.next)
      && !Settles(trace[i], events[i], k)
  {
    TableRun(trace, events, i);
    ParkedStep(trace[i], events[i], k);
  }

  /** None of the first i events settled the number. */
  ghost predicate Unsettled(trace: seq<State>, events: seq<Event>, i: nat, k: nat)
    requires IsRunFromStart(trace, events) && i <= |events|
  {
    forall j {:trigger events[j]} :: 0 <= j < i ==> !Settles(trace[j], events[j], k)
  }

  lemma UnsettledNext(trace: seq<State>, events: seq<Event>, i: nat, k: nat)
    requires IsRunFromStart(trace, events) && i < |events|
    ensures Unsettled(trace, events, i + 1, k) <==> Unsettled(trace, events, i, k) && !Settles(trace[i], events[i], k)
  {
  }

  lemma UnsettledBefore(trace: seq<State>, events: seq<Event>, i: nat, k: nat)
    requires IsRunFromStart(trace, events) && i < |trace| && trace[i].node.next <= k
    ensures Unsettled(trace, events, i, k)
  {
    forall j {:trigger events[j]} | 0 <= j < i ensures !Settles(trace[j], events[j], k) {
      NumbersOnlyGrow(trace, events, j, i);
    }
  }

  /** In every run, a number is parked exactly when it was given out and no entry with it has committed since. */
  lemma {:induction false} ParkedUntilCommitted(trace: seq<State>, events: seq<Event>, i: nat, k: nat)
    requires IsRunFromStart(trace, events) && i < |trace|
    ensures k in trace[i].node.parked <==> k < trace[i].node.next && Unsettled(trace, events, i, k)
  {
    if i > 0 {
      ParkedUntilCommitted(trace, events, i - 1, k);
      ParkedAcross(trace, events, i - 1, k);
      UnsettledNext(trace, events, i - 1, k);
      if trace[i - 1].node.next <= k {
        UnsettledBefore(trace, events, i - 1, k);
      }
    }
  }

  lemma {:induction false} NumbersOnlyGrow(trace: seq<State>, events: seq<Event>, j: nat, i: nat)
    requires IsRunFromStart(trace, events) && j <= i < |trace|
    ensures trace[j].node.next <= trace[i].node.next
    decreases i - j
  {
    if j < i {
      NumbersOnlyGrow(trace, events, j, i - 1);
      ParkedAcross(trace, events, i - 1, 0);
    }
  }

  /**
   The batch at the next place of the log is applied. Its first commit answers every client of the batch
   that is still there, in arrival order, with the result of its own proposal, and drops the others; a
   later one answers nobody.
   */
  ghost predicate AnswersBatch(s: State, m: Node, canceled: set<Chan>, first: bool)
    requires s.node.handled < |s.node.log|
  {
    var n := s.node;
    var num := n.log[n.handled].num;
    && num < |s.past.rounds| && s.past.rounds[num].BatchRound?
    && var items := s.past.rounds[num].items;
    && m.calls == n.calls + Datas(items)
    && m.answers == n.answers + (if first then BatchAnswers(items, |n.calls|, canceled) else [])
    && m.dropped == n.dropped + (if first then BatchGone(items, canceled) else [])
  }

  lemma UnparkedBatchCommits(s: State, canceled: set<Chan>)
    requires LogInv(s) && s.node.handled < |s.node.log| && OwnBatch(s.node.log[s.node.handled])
    requires s.node.log[s.node.handled].num !in s.node.parked
    ensures AnswersBatch(s, Handle(s.node, canceled), canceled, false)
  {
    var n, entry := s.node, s.node.log[s.node.handled];
    assert IsOwn(entry, s.past.rounds);
    HandleUnparked(n, canceled);
    HandleCalls(n, canceled);
    PackInOrder(s.past.rounds[entry.num].items);
    assert n.answers + [] == n.answers && n.dropped + [] == n.dropped;
  }

  lemma OwnBatchCommits(s: State, canceled: set<Chan>)
    requires LogInv(s) && ParkedInv(s) && s.node.next == |s.past.rounds|
    requires s.node.handled < |s.node.log| && OwnBatch(s.node.log[s.node.handled])
    ensures s.node.log[s.node.handled].num < s.node.next
    ensures AnswersBatch(s, Handle(s.node, canceled), canceled, s.node.log[s.node.handled].num in s.node.parked)
  {
    assert IsOwn(s.node.log[s.node.handled], s.past.rounds);
    if s.node.log[s.node.handled].num in s.node.parked {
      OwnCommit(s, canceled);
    } else {
      UnparkedBatchCommits(s, canceled);
    }
  }

  /**
   In every run, when a batch of this node commits, appended by itself or returning, its clients are
   answered if and only if no entry with its number has committed since it was given out.
   */
  lemma {:induction false} CommittedBatchIsAnswered(trace: seq<State>, events: seq<Event>, i: nat)
    requires IsRunFromStart(trace, events) && i < |events| && events[i].Commit?
    requires OwnBatch(trace[i].node.log[trace[i].node.handled])
    ensures AnswersBatch(trace[i], trace[i + 1].node, events[i].canceled,
                         Unsettled(trace, events, i, trace[i].node.log[trace[i].node.handled].num))
  {
    var s, num := trace[i], trace[i].node.log[trace[i].node.handled].num;
    assert LogInv(s) && ParkedInv(s) && s.node.next == |s.past.rounds| by { TableRun(trace, events, i); }
    assert num in s.node.parked <==> num < s.node.next && Unsettled(trace, events, i, num) by {
      ParkedUntilCommitted(trace, events, i, num);
    }
    OwnBatchCommits(s, events[i].canceled);
  }

  /** Whoever is parked under the number of a committing entry is answered or dropped. */
  lemma ParkedAreSettled(n: Node, canceled: set<Chan>)
    requires n.handled < |n.log| && !n.log[n.handled].body.Blank?
    requires
      var num := n.log[n.handled].num;
      num in n.parked && num < n.next && |ChansOf(n.parked[num])| > 0
    ensures
      var r := Handle(n, canceled);
      r.answers != n.answers || r.dropped != n.dropped
  {
    var num, r := n.log[n.handled].num, Handle(n, canceled);
    HandleFrees(n, canceled);
    HandleKeepsChans(n, canceled);
    HandleCalls(n, canceled);
    ParkedFree(n.parked, n.next, num);
    var c := ChansOf(n.parked[num])[0];
    assert c in multiset(ChansOf(n.parked[num]));
    assert Holding(r)[c] == Holding(n)[c];
  }

  /**
   In every run, a committing entry leaves this node's clients alone exactly when it is blank or its
   number is not parked: under a parked number it answers or drops whoever is parked there.
   */
  lemma EntryIsHarmlessIff(trace: seq<State>, events: seq<Event>, i: nat)
    requires IsRunFromStart(trace, events) && i < |events| && events[i].Commit?
    ensures
      var n, r := trace[i].node, trace[i + 1].node;
      var e := n.log[n.handled];
      r.answers == n.answers && r.dropped == n.dropped <==> e.body.Blank? || e.num !in n.parked
  {
    var n, canceled := trace[i].node, events[i].canceled;
    assert ParkedInv(trace[i]) && n.next == |trace[i].past.rounds| by { TableRun(trace, events, i); }
    if n.log[n.handled].body.Blank? || n.log[n.handled].num !in n.parked {
      HandleUnparked(n, canceled);
    } else {
      ParkedAreSettled(n, canceled);
    }
  }

  /**
   Without that condition a client can be answered with the result of somebody else's proposal: the
   node's own proposal is refused, and an entry another leader numbered the same commits.
   */
  lemma CollidingNumberMisdirectsReply() returns (trace: seq<State>, events: seq<Event>)
    ensures IsRunFromStart(trace, events)
    ensures
      var n := trace[|trace| - 1].node;
      && n.answers == [Answer(7, Result(0))]
      && n.calls == [[2]]
      && trace[|trace| - 1].past.accepted == [Item([1], 7)]
  {
    var propose := Propose([1], 7, true, false, 0, 0, false);
    var replicate := Replicate(Entry(false, 0, Batch(One([2]))));
    var commit := Commit({});
    var s0 := Start(1, 1, 0, {});
    var s1 := Next(s0, propose);
    assert s1.node == s0.node.(queue := s0.node.queue, parked := map[0 := OneChan(7)], next := 1);
    var s2 := Next(s1, replicate);
    assert s2.node.log == [replicate.entry];
    var s3 := Next(s2, commit);
    trace, events := [s0, s1, s2, s3], [propose, replicate, commit];
  }
}
