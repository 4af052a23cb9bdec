/**
 What every client is told, event by event: requests turned away, committed batches and committed
 configuration changes, whoever proposed them and whoever waits under their number.
 */
module ClientAnswers {
  import opened Basics
  import opened Batching
  import opened Driver
  import opened Replies

  // ---------------------------------------------------------------------------------------------
  // Draining any payload beside any channels
  // ---------------------------------------------------------------------------------------------

  /** The k-th client gets the result of the k-th call from `base` on, unless it has gone away. */
  ghost function ResultsTo(chans: seq<Chan>, base: nat, canceled: set<Chan>): (r: seq<Answer>) {
    if chans == [] then []
    else
      (if chans[0] in canceled then [] else [Answer(chans[0], Result(base))])
      + ResultsTo(chans[1..], base + 1, canceled)
  }

  /** The clients that have gone away. */
  ghost function GoneOf(chans: seq<Chan>, canceled: set<Chan>): (r: seq<Chan>) {
    if chans == [] then [] else (if chans[0] in canceled then [chans[0]] else []) + GoneOf(chans[1..], canceled)
  }

  /** The first n, or all if there are no more. */
  function FirstOf<T>(s: seq<T>, n: nat): (r: seq<T>)
    ensures |r| == if |s| <= n then |s| else n
  {
    if |s| <= n then s else s[..n]
  }

  function Beyond<T>(s: seq<T>, n: nat): (r: seq<T>)
    ensures FirstOf(s, n) + r == s
  {
    if |s| <= n then [] else s[n..]
  }

  /** What `calls` more store calls make of a node whose clients `chans` wait for them, in that order. */
  ghost predicate ServedInOrder(n: Node, r: Node, chans: seq<Chan>, calls: nat, canceled: set<Chan>) {
    && r.answers == n.answers + ResultsTo(FirstOf(chans, calls), |n.calls|, canceled)
    && r.dropped == n.dropped + (GoneOf(FirstOf(chans, calls), canceled) + Reverse(Beyond(chans, calls)))
  }

  lemma ReverseLast<T>(s: seq<T>)
    requires s != []
    ensures Reverse(s) == [s[|s| - 1]] + Reverse(DropLast(s))
  {
  }

  lemma FirstOfCons<T>(s: seq<T>, n: nat)
    requires s != [] && n > 0
    ensures FirstOf(s, n) == [s[0]] + FirstOf(s[1..], n - 1) && Beyond(s, n) == Beyond(s[1..], n - 1)
  {
  }

  lemma AppliedOne(n: Node, data: Bytes, waiting: seq<Chan>, canceled: set<Chan>, m: Node)
    requires m == ApplyOne(n, data, waiting, canceled)
    ensures m.calls == n.calls + [data]
    ensures waiting == [] ==> m.answers == n.answers && m.dropped == n.dropped
    ensures waiting != [] ==>
      var c := waiting[|waiting| - 1];
      && m.answers == n.answers + (if c in canceled then [] else [Answer(c, Result(|n.calls|))])
      && m.dropped == n.dropped + (if c in canceled then [c] else [])
  {
    assert n.answers + [] == n.answers && n.dropped + [] == n.dropped;
  }

  lemma NobodyWaits(n: Node, r: Node, calls: nat, canceled: set<Chan>)
    requires r.answers == n.answers && r.dropped == n.dropped
    ensures ServedInOrder(n, r, [], calls, canceled)
  {
    assert Beyond<Chan>([], calls) == [] && FirstOf<Chan>([], calls) == [];
    assert n.answers + [] == n.answers && n.dropped + [] == n.dropped;
  }

  /** One client is settled, then the others. */
  lemma SettlesCons(n: Node, m: Node, r: Node, chans: seq<Chan>, calls: nat, canceled: set<Chan>)
    requires chans != [] && calls > 0 && |m.calls| == |n.calls| + 1
    requires m.answers == n.answers + (if chans[0] in canceled then [] else [Answer(chans[0], Result(|n.calls|))])
    requires m.dropped == n.dropped + (if chans[0] in canceled then [chans[0]] else [])
    requires ServedInOrder(m, r, chans[1..], calls - 1, canceled)
    ensures ServedInOrder(n, r, chans, calls, canceled)
  {
    FirstOfCons(chans, calls);
    var first := FirstOf(chans, calls);
    assert first[1..] == FirstOf(chans[1..], calls - 1) && first[0] == chans[0];
    var answer := if chans[0] in canceled then [] else [Answer(chans[0], Result(|n.calls|))];
    Associative(n.answers, answer, ResultsTo(first[1..], |n.calls| + 1, canceled));
    var gone := if chans[0] in canceled then [chans[0]] else [];
    Associative(gone, GoneOf(first[1..], canceled), Reverse(Beyond(chans, calls)));
    Associative(n.dropped, gone, GoneOf(first[1..], canceled) + Reverse(Beyond(chans, calls)));
  }

  lemma NothingToApply(n: Node, chans: seq<Chan>, r: Node, canceled: set<Chan>)
    requires r.answers == n.answers && r.dropped == n.dropped + chans
    ensures ServedInOrder(n, r, Reverse(chans), 0, canceled)
  {
    assert FirstOf(Reverse(chans), 0) == [] && Beyond(Reverse(chans), 0) == Reverse(chans);
    ReverseTwice(chans);
    assert n.answers + [] == n.answers && [] + chans == chans;
  }

  /** Payload and channels popped from their ends side by side, whatever their lengths. */
  lemma {:induction false} DrainSettles(n: Node, datas: seq<Bytes>, chans: seq<Chan>, canceled: set<Chan>)
    ensures ServedInOrder(n, Drain(n, datas, chans, canceled), Reverse(chans), |datas|, canceled)
    decreases |datas|
  {
    var r := Drain(n, datas, chans, canceled);
    if datas == [] {
      NothingToApply(n, chans, r, canceled);
    } else {
      var m := ApplyOne(n, datas[|datas| - 1], chans, canceled);
      AppliedOne(n, datas[|datas| - 1], chans, canceled, m);
      DrainSettles(m, DropLast(datas), DropLast(chans), canceled);
      if chans == [] {
        assert Reverse(chans) == [] && Reverse(DropLast(chans)) == [];
        NobodyLeft(n, m, r, |datas|, canceled);
      } else {
        ReverseLast(chans);
        assert Reverse(chans)[1..] == Reverse(DropLast(chans));
        SettlesCons(n, m, r, Reverse(chans), |datas|, canceled);
      }
    }
  }

  lemma NobodyLeft(n: Node, m: Node, r: Node, calls: nat, canceled: set<Chan>)
    requires calls > 0 && m.answers == n.answers && m.dropped == n.dropped
    requires ServedInOrder(m, r, [], calls - 1, canceled)
    ensures ServedInOrder(n, r, [], calls, canceled)
  {
    assert Beyond<Chan>([], calls - 1) == [] && FirstOf<Chan>([], calls - 1) == [];
    NobodyWaits(n, r, calls, canceled);
  }

  // ---------------------------------------------------------------------------------------------
  // Who waits under a number
  // ---------------------------------------------------------------------------------------------

  /** The clients of what took a number, in the order of their arrival. */
  ghost function ClientsOf(r: Round): (chans: seq<Chan>) {
    match r
    case BatchRound(items) => Chans(items)
    case ConfigRound(_, chan) => [chan]
  }

  lemma ParkedClients(r: Round)
    requires |ChansOf(RoundChans(r))| > 0
    ensures
      if RoundChans(r).OneChan? then ClientsOf(r) == [RoundChans(r).chan]
      else ClientsOf(r) == Reverse(RoundChans(r).chans) && |ClientsOf(r)| != 1
  {
    if r.BatchRound? && |r.items| != 1 {
      ReverseTwice(Chans(r.items));
    } else if r.BatchRound? {
      assert Chans(r.items) == [r.items[0].chan];
    }
  }

  /** A payload reaches the clients parked for it if one waits for one, or several for several. */
  ghost predicate Fits(p: Proposals, waiting: seq<Chan>) {
    p.One? <==> |waiting| == 1
  }

  /** What a committed entry does to whoever waits under its number, and to nobody else. */
  ghost predicate CommitTells(n: Node, r: Node, body: Body, waiting: seq<Chan>, canceled: set<Chan>) {
    match body
    case Blank => r.answers == n.answers && r.dropped == n.dropped
    case Batch(p) =>
      if waiting == [] || Fits(p, waiting) then ServedInOrder(n, r, waiting, |InOrder(p)|, canceled)
      else r.answers == n.answers && r.dropped == n.dropped + Reverse(waiting)
    case Reconfigure(change) =>
      if |waiting| == 1 then
        && r.dropped == n.dropped
        && r.answers == n.answers + [Answer(waiting[0],
             match change {
               case AddNode(id) => Joined(id, n.peers + {id})
               case RemoveNode(_, _) => Done
               case OtherChange(_) => Unimplemented
             })]
      else r.answers == n.answers && r.dropped == n.dropped + Reverse(waiting)
  }

  /** The channels parked under a number, as a node stores them, are those clients. */
  ghost predicate ParkedAs(n: Node, num: nat, waiting: seq<Chan>) {
    if num !in n.parked then waiting == []
    else
      match n.parked[num]
      case OneChan(c) => waiting == [c]
      case MoreChans(cs) => waiting == Reverse(cs) && |cs| > 1
  }

  lemma OneSettles(n: Node, data: Bytes, c: Chan, canceled: set<Chan>)
    ensures ServedInOrder(n, ApplyOne(n, data, [c], canceled), [c], 1, canceled)
  {
    var m := ApplyOne(n, data, [c], canceled);
    AppliedOne(n, data, [c], canceled, m);
    NobodyWaits(m, m, 0, canceled);
    SettlesCons(n, m, m, [c], 1, canceled);
  }

  lemma SingleTells(n: Node, num: nat, p: Proposals, waiting: seq<Chan>, canceled: set<Chan>)
    requires ParkedAs(n, num, waiting) && p.One?
    ensures CommitTells(n, HandleNormal(n, num, p, canceled), Batch(p), waiting, canceled)
  {
    var m := n.(parked := n.parked - {num});
    if num !in n.parked {
      NobodyWaits(n, HandleNormal(n, num, p, canceled), 1, canceled);
    } else if n.parked[num].OneChan? {
      OneSettles(m, p.data, n.parked[num].chan, canceled);
    } else {
      ReverseTwice(n.parked[num].chans);
    }
  }

  lemma DrainTells(n: Node, num: nat, p: Proposals, waiting: seq<Chan>, canceled: set<Chan>)
    requires ParkedAs(n, num, waiting) && p.More?
    ensures CommitTells(n, HandleNormal(n, num, p, canceled), Batch(p), waiting, canceled)
  {
    var m, r := n.(parked := n.parked - {num}), HandleNormal(n, num, p, canceled);
    if num !in n.parked {
      DrainUnwaited(m, p.datas, canceled);
      NobodyWaits(n, r, |p.datas|, canceled);
    } else if n.parked[num].OneChan? {
      var c := n.parked[num].chan;
      DrainUnwaited(m.(dropped := m.dropped + [c]), p.datas, canceled);
      assert Reverse([c]) == [c];
    } else {
      DrainSettles(m, p.datas, n.parked[num].chans, canceled);
    }
  }

  lemma ChangeTells(n: Node, num: nat, change: Change, waiting: seq<Chan>, canceled: set<Chan>)
    requires ParkedAs(n, num, waiting)
    ensures CommitTells(n, HandleConfigChange(n, num, change), Reconfigure(change), waiting, canceled)
  {
    var response := ConfigSettles(n, num, change);
    assert n.answers + [] == n.answers && n.dropped + [] == n.dropped;
    if num in n.parked && n.parked[num].MoreChans? {
      ReverseTwice(n.parked[num].chans);
    }
  }

  lemma HandleTells(n: Node, waiting: seq<Chan>, canceled: set<Chan>)
    requires n.handled < |n.log| && ParkedAs(n, n.log[n.handled].num, waiting)
    ensures CommitTells(n, Handle(n, canceled), n.log[n.handled].body, waiting, canceled)
  {
    var e, m := n.log[n.handled], n.(handled := n.handled + 1);
    match e.body
    case Blank =>
    case Batch(p) =>
      HandleIsNormal(n, canceled);
      if p.One? {
        SingleTells(m, e.num, p, waiting, canceled);
      } else {
        DrainTells(m, e.num, p, waiting, canceled);
      }
      SameTelling(m, n, Handle(n, canceled), e.body, waiting, canceled);
    case Reconfigure(change) =>
      HandleIsConfigChange(n, canceled);
      ChangeTells(m, e.num, change, waiting, canceled);
      SameTelling(m, n, Handle(n, canceled), e.body, waiting, canceled);
  }

  lemma SameTelling(m: Node, n: Node, r: Node, body: Body, waiting: seq<Chan>, canceled: set<Chan>)
    requires m == n.(handled := m.handled) && CommitTells(m, r, body, waiting, canceled)
    ensures CommitTells(n, r, body, waiting, canceled)
  {
  }

  // ---------------------------------------------------------------------------------------------
  // Theorems
  // ---------------------------------------------------------------------------------------------

  /** Those waiting for the entry that commits: the clients of its number, as long as no entry had it before. */
  ghost function WaitingAt(trace: seq<State>, events: seq<Event>, i: nat): (chans: seq<Chan>)
    requires IsRunFromStart(trace, events) && i < |events| && events[i].Commit?
  {
    var s := trace[i];
    var num := s.node.log[s.node.handled].num;
    if num < |s.past.rounds| && Unsettled(trace, events, i, num) then ClientsOf(s.past.rounds[num]) else []
  }

  lemma WaitingIsParked(trace: seq<State>, events: seq<Event>, i: nat)
    requires IsRunFromStart(trace, events) && i < |events| && events[i].Commit?
    ensures ParkedAs(trace[i].node, trace[i].node.log[trace[i].node.handled].num, WaitingAt(trace, events, i))
  {
    var s, num := trace[i], trace[i].node.log[trace[i].node.handled].num;
    assert ParkedInv(s) && s.node.next == |s.past.rounds| by { TableRun(trace, events, i); }
    assert num in s.node.parked <==> num < s.node.next && Unsettled(trace, events, i, num) by {
      ParkedUntilCommitted(trace, events, i, num);
    }
    if num in s.node.parked {
      ParkedClients(s.past.rounds[num]);
    }
  }

  /** What an event other than a commit does to the clients and to its own request. */
  ghost predicate RequestTells(s: State, e: Event, t: State) {
    match e
    case Propose(_, chan, leader, busy, _, _, _) =>
      if !leader then t.node == s.node.(answers := s.node.answers + [Answer(chan, WrongLeader)])
      else if busy then t.node == s.node.(answers := s.node.answers + [Answer(chan, Busy)])
      else t.node.answers == s.node.answers && t.node.dropped == s.node.dropped
    case ConfigChange(change, chan, leader, ok) =>
      if !leader then t.node == s.node.(answers := s.node.answers + [Answer(chan, WrongLeader)])
      else
        var meant := if change.id == 0 then change.(id := s.node.id) else change;
        && t.past.rounds == s.past.rounds + [ConfigRound(meant, chan)]
        && t.node == s.node.(
             parked := s.node.parked[s.node.next := OneChan(chan)],
             next := s.node.next + 1,
             log := s.node.log + if ok then [Entry(true, s.node.next, Reconfigure(meant))] else [])
    case _ => t.node.answers == s.node.answers && t.node.dropped == s.node.dropped
  }

  lemma OtherEventsTell(s: State, e: Event, t: State)
    requires Enabled(s, e) && !e.Commit? && t == Next(s, e)
    ensures RequestTells(s, e, t)
  {
    assert s.node.log + [] == s.node.log;
  }

  /**
   In every run and at every event, all that clients are told: a request to a node that does not lead gets
   `WrongLeader`, a proposal to a busy leader `Busy`; a committed batch gives those waiting under its
   number, as far as they are still there, the results of its calls in order, provided one waits for
   one or several for several, and otherwise drops them; a committed change tells a single client what
   became of it; and nobody else is told anything or dropped.
   */
  lemma ClientsAreTold(trace: seq<State>, events: seq<Event>, i: nat)
    requires IsRunFromStart(trace, events) && i < |events|
    ensures !events[i].Commit? ==> RequestTells(trace[i], events[i], trace[i + 1])
    ensures events[i].Commit? ==>
      var n := trace[i].node;
      CommitTells(n, trace[i + 1].node, n.log[n.handled].body, WaitingAt(trace, events, i), events[i].canceled)
  {
    if events[i].Commit? {
      WaitingIsParked(trace, events, i);
      HandleTells(trace[i].node, WaitingAt(trace, events, i), events[i].canceled);
    } else {
      OtherEventsTell(trace[i], events[i], trace[i + 1]);
    }
  }

  /**
   In every run, when a configuration change of this node commits, exactly its client is answered, with
   the new peers for an addition, with success for a removal, with a refusal otherwise, if and only
   if no entry with its number has committed before; otherwise nobody is.
   */
  lemma CommittedChangeIsAnswered(trace: seq<State>, events: seq<Event>, i: nat)
    requires IsRunFromStart(trace, events) && i < |events| && events[i].Commit?
    requires
      var e := trace[i].node.log[trace[i].node.handled];
      e.own && e.body.Reconfigure?
    ensures
      var n, r, rounds := trace[i].node, trace[i + 1].node, trace[i].past.rounds;
      var e := n.log[n.handled];
      && e.num < |rounds| && rounds[e.num].ConfigRound? && rounds[e.num].change == e.body.change
      && r.dropped == n.dropped && r.calls == n.calls
      && (if !Unsettled(trace, events, i, e.num) then r.answers == n.answers
          else
            |r.answers| == |n.answers| + 1 && r.answers[..|n.answers|] == n.answers
            && var a := r.answers[|n.answers|];
            && a.chan == rounds[e.num].chan
            && match e.body.change {
                 case AddNode(id) => a.response == Joined(id, r.peers) && r.peers == n.peers + {id}
                 case RemoveNode(_, _) => a.response == Done
                 case OtherChange(_) => a.response == Unimplemented
               })
  {
    var n, e := trace[i].node, trace[i].node.log[trace[i].node.handled];
    assert LogInv(trace[i]) by { TableRun(trace, events, i); }
    assert IsOwn(e, trace[i].past.rounds);
    ClientsAreTold(trace, events, i);
    HandleMembership(n, events[i].canceled);
    HandleCalls(n, events[i].canceled);
    assert n.dropped + [] == n.dropped && n.calls + [] == n.calls && Reverse<Chan>([]) == [];
  }
}
