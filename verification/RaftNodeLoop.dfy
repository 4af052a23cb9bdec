/** The node's handlers as code: every method does to the fields what the driver's step says. */
module RaftNodeLoop {
  import opened Basics
  import opened Batching
  import opened Driver

  /** Handing out a list of committed entries; each entry has its own set of canceled channels. */
  ghost function HandleAll(n: Node, canceled: seq<set<Chan>>): (r: Node)
    requires n.handled + |canceled| <= |n.log|
    decreases |canceled|
  {
    if canceled == [] then n
    else
      HandleCalls(n, canceled[0]);
      HandleAll(Handle(n, canceled[0]), canceled[1..])
  }

  class RaftNode {
    const id: nat
    const merger: Merger
    var uncommitteds: map<nat, ReplyChan>
    var num: nat
    var log: seq<Entry>
    var handled: nat
    var calls: seq<Bytes>
    var answers: seq<Answer>
    var dropped: seq<Chan>
    var peers: set<nat>
    var shouldQuit: bool

    ghost predicate Valid()
      reads this, merger
    {
      merger.Valid() && handled <= |log|
    }

    ghost function Model(): (n: Node)
      requires Valid()
      reads this, merger
    {
      Node(id, merger.Model(), uncommitteds, num, log, handled, calls, answers, dropped, peers, shouldQuit)
    }

    constructor (id: nat, size: nat, timeout: int, peers: set<nat>)
      ensures Valid() && Model() == Start(id, size, timeout, peers).node
      ensures merger.Model() == Queue([], 0, size, timeout) && uncommitteds == map[] && num == 0 && this.id == id
      ensures log == [] && handled == 0 && calls == [] && answers == [] && dropped == []
      ensures this.peers == peers && !shouldQuit
    {
      this.id, this.peers := id, peers;
      merger := new Merger(size, timeout);
      uncommitteds, num, log, handled, calls, answers, dropped, shouldQuit := map[], 0, [], 0, [], [], [], false;
    }

    /** `ok` is whether the consensus library accepts the proposal. */
    method TakeAndPropose(now: int, stamp: int, ok: bool)
      requires Valid()
      modifies this, merger
      ensures Valid() && Model() == Driver.TakeAndPropose(old(Model()), now, stamp, ok)
    {
      ReadyIff(merger.Model(), now);
      var taken, data, reply := merger.Take(now, stamp);
      if taken {
        var s := num;
        num := num + 1;
        uncommitteds := uncommitteds[s := reply];
        if ok {
          log := log + [Entry(true, s, Batch(data))];
        }
      }
    }

    method OnPropose(proposal: Bytes, chan: Chan, leader: bool, busy: bool, now: int, stamp: int, ok: bool)
      requires Valid()
      modifies this, merger
      ensures Valid() && Model() == Driver.OnPropose(old(Model()), proposal, chan, leader, busy, now, stamp, ok)
    {
      if !leader {
        answers := answers + [Answer(chan, WrongLeader)];
      } else if busy {
        answers := answers + [Answer(chan, Busy)];
      } else {
        merger.Add(proposal, chan);
        TakeAndPropose(now, stamp, ok);
      }
    }

    method OnConfigChange(change: Change, chan: Chan, leader: bool, ok: bool)
      requires Valid()
      modifies this
      ensures Valid() && Model() == Driver.OnConfigChange(old(Model()), change, chan, leader, ok)
    {
      var addressed := if change.id == 0 then change.(id := id) else change;
      if !leader {
        answers := answers + [Answer(chan, WrongLeader)];
      } else {
        var s := num;
        num := num + 1;
        uncommitteds := uncommitteds[s := OneChan(chan)];
        if ok {
          log := log + [Entry(true, s, Reconfigure(addressed))];
        }
      }
    }

    method Reply(chan: Chan, call: nat, canceled: set<Chan>)
      requires Valid() && call < |calls|
      modifies this`answers, this`dropped
      ensures Valid() && Model() ==
        if chan in canceled then old(Model()).(dropped := old(dropped) + [chan])
        else Send(old(Model()), chan, Result(call))
    {
      if chan in canceled {
        dropped := dropped + [chan];
      } else {
        answers := answers + [Answer(chan, Result(call))];
      }
    }

    method HandleNormal(entryNum: nat, proposals: Proposals, canceled: set<Chan>)
      requires Valid()
      modifies this
      ensures Valid() && Model() == Driver.HandleNormal(old(Model()), entryNum, proposals, canceled)
    {
      var found := entryNum in uncommitteds;
      var reply := if found then uncommitteds[entryNum] else OneChan(0);
      uncommitteds := uncommitteds - {entryNum};
      match proposals
      case One(data) =>
        var call := |calls|;
        if found && reply.MoreChans? {
          dropped := dropped + reply.chans;
        }
        calls := calls + [data];
        if found && reply.OneChan? {
          Reply(reply.chan, call, canceled);
        }
      case More(all) =>
        var datas, chans := all, [];
        if found && reply.OneChan? {
          dropped := dropped + [reply.chan];
        } else if found {
          chans := reply.chans;
        }
        ghost var goal := Drain(Model(), datas, chans, canceled);
        while datas != []
          invariant Valid() && Drain(Model(), datas, chans, canceled) == goal
          decreases |datas|
        {
          var data, call := datas[|datas| - 1], |calls|;
          datas := datas[..|datas| - 1];
          calls := calls + [data];
          if chans != [] {
            var chan := chans[|chans| - 1];
            chans := chans[..|chans| - 1];
            Reply(chan, call, canceled);
          }
        }
        dropped := dropped + chans;
    }

    method HandleConfigChange(entryNum: nat, change: Change)
      requires Valid()
      modifies this
      ensures Valid() && Model() == Driver.HandleConfigChange(old(Model()), entryNum, change)
    {
      match change {
        case AddNode(peer) => peers := peers + {peer};
        case RemoveNode(peer, stale) =>
          if peer == id {
            if !stale {
              shouldQuit := true;
            }
          } else {
            peers := peers - {peer};
          }
        case OtherChange(_) =>
      }
      if entryNum in uncommitteds {
        var sender := uncommitteds[entryNum];
        uncommitteds := uncommitteds - {entryNum};
        var response :=
          match change {
            case AddNode(peer) => Joined(peer, peers)
            case RemoveNode(_, _) => Done
            case OtherChange(_) => Unimplemented
          };
        if sender.OneChan? {
          answers := answers + [Answer(sender.chan, response)];
        } else {
          dropped := dropped + sender.chans;
        }
      }
    }

    /** A received snapshot replaces the store and what the library has committed; clients stay parked. */
    method Restore()
      requires Valid()
      modifies this`log, this`handled
      ensures Valid() && Model() == Restored(old(Model()))
      ensures log == [] && handled == 0
    {
      log, handled := [], 0;
    }

    method HandleEntry(canceled: set<Chan>)
      requires Valid() && handled < |log|
      modifies this
      ensures Valid() && Model() == Handle(old(Model()), canceled)
    {
      var entry := log[handled];
      handled := handled + 1;
      match entry.body
      case Blank =>
      case Batch(p) => HandleNormal(entry.num, p, canceled);
      case Reconfigure(c) => HandleConfigChange(entry.num, c);
    }

    /** Applies the next `|canceled|` committed entries in log order. */
    method HandleCommittedEntries(canceled: seq<set<Chan>>)
      requires Valid() && handled + |canceled| <= |log|
      modifies this
      ensures Valid() && Model() == HandleAll(old(Model()), canceled)
    {
      var i := 0;
      while i < |canceled|
        invariant 0 <= i <= |canceled| && Valid() && handled + |canceled| - i <= |log|
        invariant HandleAll(Model(), canceled[i..]) == HandleAll(old(Model()), canceled)
      {
        HandleCalls(Model(), canceled[i]);
        HandleEntry(canceled[i]);
        assert canceled[i..][1..] == canceled[i + 1..];
        i := i + 1;
      }
    }
  }
}
