/**
 The proposal merger of the replicated-log driver: client proposals are collected together with
 their reply channels and leave in batches, when the batch is full or its collection time is over.
 */
module Batching {
  import opened Basics

  /** A one-shot reply channel; every request carries its own. */
  type Chan = nat

  datatype Item = Item(data: Bytes, chan: Chan)

  /** The payload of one log entry. A batch is stored newest first. */
  datatype Proposals = One(data: Bytes) | More(datas: seq<Bytes>)

  /** The reply channels parked for one log entry, in the order of its payload. */
  datatype ReplyChan = OneChan(chan: Chan) | MoreChans(chans: seq<Chan>)

  /** The merger's content, oldest first, and its batching parameters. */
  datatype Queue = Queue(items: seq<Item>, started: int, size: nat, timeout: int)

  function Datas(items: seq<Item>): (r: seq<Bytes>)
    ensures |r| == |items|
    ensures forall i :: 0 <= i < |items| ==> r[i] == items[i].data
  {
    if items == [] then [] else Datas(items[..|items| - 1]) + [items[|items| - 1].data]
  }

  function Chans(items: seq<Item>): (r: seq<Chan>)
    ensures |r| == |items|
    ensures forall i :: 0 <= i < |items| ==> r[i] == items[i].chan
  {
    if items == [] then [] else Chans(items[..|items| - 1]) + [items[|items| - 1].chan]
  }

  /** The proposals of an entry in the order in which a replica applies them. */
  function InOrder(p: Proposals): (r: seq<Bytes>) {
    match p
    case One(d) => [d]
    case More(ds) => Reverse(ds)
  }

  function ChansInOrder(c: ReplyChan): (r: seq<Chan>) {
    match c
    case OneChan(d) => [d]
    case MoreChans(ds) => Reverse(ds)
  }

  /** The entry payload a batch of items, oldest first, is stored as. */
  function Pack(items: seq<Item>): (p: Proposals) {
    if |items| == 1 then One(items[0].data) else More(Reverse(Datas(items)))
  }

  function PackChans(items: seq<Item>): (c: ReplyChan) {
    if |items| == 1 then OneChan(items[0].chan) else MoreChans(Reverse(Chans(items)))
  }

  /** Packing and applying a batch restores its arrival order. */
  lemma PackInOrder(items: seq<Item>)
    ensures InOrder(Pack(items)) == Datas(items)
    ensures ChansInOrder(PackChans(items)) == Chans(items)
  {
    if |items| == 1 {
      assert Datas(items) == [items[0].data] && Chans(items) == [items[0].chan];
    } else {
      ReverseTwice(Datas(items));
      ReverseTwice(Chans(items));
    }
  }

  function Added(q: Queue, item: Item): (r: Queue) {
    q.(items := q.items + [item])
  }

  /** How many proposals the next batch would hold. */
  function BatchLength(q: Queue): (n: nat) {
    if |q.items| > q.size then q.size else |q.items|
  }

  predicate BatchReady(q: Queue, now: int) {
    BatchLength(q) > 0 && (BatchLength(q) == q.size || now > q.started + q.timeout)
  }

  /** The items that leave, oldest first; a batch of one is popped from the end of the queue. */
  function Taken(q: Queue): (items: seq<Item>)
    requires BatchLength(q) > 0
  {
    if BatchLength(q) == 1 then [q.items[|q.items| - 1]] else q.items[..BatchLength(q)]
  }

  function Remaining(q: Queue, now: int): (r: Queue)
    requires BatchLength(q) > 0
  {
    if BatchLength(q) == 1 then q.(items := q.items[..|q.items| - 1], started := now)
    else q.(items := q.items[BatchLength(q)..], started := now)
  }

  /** The two vectors hold the items' proposals and channels side by side. */
  ghost predicate SideBySide(items: seq<Item>, datas: seq<Bytes>, chans: seq<Chan>) {
    && |items| == |datas| == |chans|
    && forall i :: 0 <= i < |items| ==> items[i].data == datas[i] && items[i].chan == chans[i]
  }

  lemma SliceSideBySide(items: seq<Item>, datas: seq<Bytes>, chans: seq<Chan>, k: nat)
    requires SideBySide(items, datas, chans) && k <= |items|
    ensures SideBySide(items[..k], datas[..k], chans[..k])
    ensures SideBySide(items[k..], datas[k..], chans[k..])
  {
  }

  lemma PackSideBySide(items: seq<Item>, datas: seq<Bytes>, chans: seq<Chan>)
    requires SideBySide(items, datas, chans) && |items| > 1
    ensures Pack(items) == More(Reverse(datas)) && PackChans(items) == MoreChans(Reverse(chans))
  {
    assert Datas(items) == datas;
    assert Chans(items) == chans;
  }

  /** A batch leaves when there is anything, and either a full batch or the collection time is over. */
  lemma ReadyIff(q: Queue, now: int)
    ensures BatchReady(q, now) <==>
      q.items != [] && q.size >= 1 && (|q.items| >= q.size || now > q.started + q.timeout)
  {
  }

  class Merger {
    var proposals: seq<Bytes>
    var chans: seq<Chan>
    var startCollectionTime: int
    const proposalBatchSize: nat
    const proposalBatchTimeout: int
    ghost var items: seq<Item>

    ghost predicate Valid()
      reads this
    {
      SideBySide(items, proposals, chans)
    }

    ghost function Model(): (q: Queue)
      reads this
    {
      Queue(items, startCollectionTime, proposalBatchSize, proposalBatchTimeout)
    }

    constructor (size: nat, timeout: int)
      ensures Valid() && Model() == Queue([], 0, size, timeout)
    {
      proposals, chans, startCollectionTime, items := [], [], 0, [];
      proposalBatchSize, proposalBatchTimeout := size, timeout;
    }

    method Add(proposal: Bytes, chan: Chan)
      requires Valid()
      modifies this
      ensures Valid() && Model() == Added(old(Model()), Item(proposal, chan))
    {
      proposals := proposals + [proposal];
      chans := chans + [chan];
      items := items + [Item(proposal, chan)];
    }

    /** Clock readings are parameters: `now` decides the timeout, `stamp` restarts the collection. */
    method Take(now: int, stamp: int) returns (taken: bool, batch: Proposals, reply: ReplyChan)
      requires Valid()
      modifies this
      ensures Valid()
      ensures taken <==>
        var q := old(Model());
        q.items != [] && q.size >= 1 && (|q.items| >= q.size || now > q.started + q.timeout)
      ensures taken ==>
        && batch == Pack(Taken(old(Model())))
        && reply == PackChans(Taken(old(Model())))
        && Model() == Remaining(old(Model()), stamp)
      ensures !taken ==> Model() == old(Model())
    {
      var max := proposalBatchSize;
      var len := |proposals|;
      len := if len > max then max else len;
      batch, reply := One([]), OneChan(0);
      if len > 0 && (len == max || now > startCollectionTime + proposalBatchTimeout) {
        taken := true;
        if len == 1 {
          var last := |proposals| - 1;
          SliceSideBySide(items, proposals, chans, last);
          batch, reply := One(proposals[last]), OneChan(chans[last]);
          proposals, chans, items := proposals[..last], chans[..last], items[..last];
        } else {
          SliceSideBySide(items, proposals, chans, len);
          PackSideBySide(items[..len], proposals[..len], chans[..len]);
          batch, reply := More(Reverse(proposals[..len])), MoreChans(Reverse(chans[..len]));
          proposals, chans, items := proposals[len..], chans[len..], items[len..];
        }
        startCollectionTime := stamp;
      } else {
        taken := false;
      }
    }
  }

  /**
   A batch is first in, first out exactly when the queue is not over-full with a batch size of one:
   then the newest proposal, not the oldest, leaves.
   */
  lemma TakeIsFifoIff(q: Queue, now: int)
    requires BatchLength(q) > 0 && Distinct(Chans(q.items))
    ensures Taken(q) + Remaining(q, now).items == q.items <==> !(q.size == 1 && |q.items| > 1)
  {
    if BatchLength(q) == 1 && |q.items| > 1 {
      var last := |q.items| - 1;
      DistinctIndices(Chans(q.items), 0, last);
      assert (Taken(q) + Remaining(q, now).items)[0] == q.items[last];
    }
  }

  /** When no more than one batch is queued, the whole queue leaves. */
  lemma TakeEmptiesQueue(q: Queue, now: int)
    requires 0 < |q.items| <= q.size
    ensures Taken(q) == q.items
    ensures Remaining(q, now) == q.(items := [], started := now)
  {
  }
}
