/** The Redis-backed list: pushes with a size limit, and iteration in pages. */
module RedisList {
  import opened Basics

  datatype PushResult = Pushed | Evicted(value: Bytes) | Full

  /** The list after a limited push; the front makes room only if the caller allows it. */
  function PushLimited(list: seq<Bytes>, val: Bytes, limit: nat, popFront: bool): (r: (seq<Bytes>, PushResult)) {
    if |list| < limit then (list + [val], Pushed)
    else if !popFront then (list, Full)
    else if list == [] then ([val], Pushed)
    else (list[1..] + [val], Evicted(list[0]))
  }

  class RedisStorageList {
    var items: seq<Bytes>

    constructor ()
      ensures items == []
    {
      items := [];
    }

    method PushLimit(val: Bytes, limit: nat, popFront: bool) returns (r: PushResult)
      modifies this
      ensures (items, r) == PushLimited(old(items), val, limit, popFront)
    {
      var count := |items|;
      if count < limit {
        items := items + [val];
        return Pushed;
      } else if popFront {
        r := if items == [] then Pushed else Evicted(items[0]);
        items := (if items == [] then [] else items[1..]) + [val];
        assert old(items) == [] ==> items == [val];
      } else {
        return Full;
      }
    }

    /** An inclusive range of the list, as the server's LRANGE gives it for non-negative bounds. */
    function Range(start: nat, stop: nat): (r: seq<Bytes>)
      reads this
      ensures start <= stop ==> (r == [] <==> start >= |items|)
      ensures r != [] ==> start + |r| <= |items| && r == items[start..start + |r|]
    {
      if start >= |items| || stop < start then []
      else items[start..if stop + 1 <= |items| then stop + 1 else |items|]
    }
  }

  // ---------------------------------------------------------------------------------------------
  // Runs of limited pushes that evict
  // ---------------------------------------------------------------------------------------------

  function EvictedBy(r: PushResult): (s: seq<Bytes>) {
    if r.Evicted? then [r.value] else []
  }

  /** The list and everything evicted from it, oldest first, after pushing `vals` in order. */
  function PushAll(list: seq<Bytes>, vals: seq<Bytes>, limit: nat): (r: (seq<Bytes>, seq<Bytes>)) {
    if vals == [] then (list, [])
    else
      var (init, gone) := PushAll(list, vals[..|vals| - 1], limit);
      var (after, result) := PushLimited(init, vals[|vals| - 1], limit, true);
      (after, gone + EvictedBy(result))
  }

  /** Nothing is lost or reordered: evicted values followed by the list are the old list and the pushes. */
  lemma {:induction false} PushesConserve(list: seq<Bytes>, vals: seq<Bytes>, limit: nat)
    ensures
      var (after, gone) := PushAll(list, vals, limit);
      gone + after == list + vals
  {
    if vals != [] {
      var init, last := vals[..|vals| - 1], vals[|vals| - 1];
      PushesConserve(list, init, limit);
      var (before, gone) := PushAll(list, init, limit);
      assert list + vals == list + init + [last];
      assert before != [] && |before| >= limit ==> gone + before == gone + [before[0]] + before[1..];
    }
  }

  /** How many values still fit; an empty list takes one whatever the limit, if it may evict. */
  function Room(length: nat, limit: nat): (r: nat) {
    if length < limit then limit - length else if length == 0 then 1 else 0
  }

  lemma {:induction false} EvictedCount(list: seq<Bytes>, vals: seq<Bytes>, limit: nat)
    ensures
      var (after, gone) := PushAll(list, vals, limit);
      var room := Room(|list|, limit);
      |gone| == (if |vals| <= room then 0 else |vals| - room) && |after| == |list| + |vals| - |gone|
  {
    if vals != [] {
      EvictedCount(list, vals[..|vals| - 1], limit);
    }
  }

  /**
   Over any run of evicting pushes nothing goes while there is room, and then one value for each further
   push, always the oldest: the list is the newest part of the old list and the pushes.
   */
  lemma PushesKeepTheNewest(list: seq<Bytes>, vals: seq<Bytes>, limit: nat)
    ensures
      var (after, gone) := PushAll(list, vals, limit);
      var room := if |list| < limit then limit - |list| else if list == [] then 1 else 0;
      var evicted := if |vals| <= room then 0 else |vals| - room;
      && evicted <= |list + vals|
      && gone == (list + vals)[..evicted] && after == (list + vals)[evicted..]
  {
    EvictedCount(list, vals, limit);
    PushesConserve(list, vals, limit);
    var (after, gone) := PushAll(list, vals, limit);
    assert (gone + after)[..|gone|] == gone && (gone + after)[|gone|..] == after;
  }

  /** With at most `limit` values to begin with, exactly the surplus over the limit is evicted. */
  lemma SurplusIsEvicted(list: seq<Bytes>, vals: seq<Bytes>, limit: nat)
    requires |list| <= limit && limit >= 1
    ensures |PushAll(list, vals, limit).1| == if |list| + |vals| <= limit then 0 else |list| + |vals| - limit
  {
    EvictedCount(list, vals, limit);
  }

  /** The list and the answers after pushing `vals` in order without making room. */
  function TryAll(list: seq<Bytes>, vals: seq<Bytes>, limit: nat): (r: (seq<Bytes>, seq<PushResult>)) {
    if vals == [] then (list, [])
    else
      var (init, results) := TryAll(list, vals[..|vals| - 1], limit);
      var (after, result) := PushLimited(init, vals[|vals| - 1], limit, false);
      (after, results + [result])
  }

  /** Over any run of pushes that may not evict, the first ones that fit are kept and all others refused. */
  lemma {:induction false} PushesAreRefusedWhenFull(list: seq<Bytes>, vals: seq<Bytes>, limit: nat)
    ensures
      var (after, results) := TryAll(list, vals, limit);
      var room := if |list| < limit then limit - |list| else 0;
      && after == list + (if |vals| <= room then vals else vals[..room])
      && |results| == |vals|
      && forall i :: 0 <= i < |vals| ==> results[i] == if i < room then Pushed else Full
  {
    if vals != [] {
      var init := vals[..|vals| - 1];
      PushesAreRefusedWhenFull(list, init, limit);
      var room := if |list| < limit then limit - |list| else 0;
      assert |vals| <= room ==> list + vals == list + init + [vals[|vals| - 1]];
      assert |init| >= room ==> init[..room] == vals[..room];
    } else {
      assert list + [] == list;
    }
  }

  /** The list stays within its limit over every run exactly when there is room for one value at all. */
  lemma PushesStayWithinLimitIff(limit: nat)
    ensures (forall list: seq<Bytes>, vals: seq<Bytes> :: |list| <= limit ==> |PushAll(list, vals, limit).0| <= limit)
      <==> limit >= 1
  {
    if limit >= 1 {
      forall list: seq<Bytes>, vals: seq<Bytes> | |list| <= limit ensures |PushAll(list, vals, limit).0| <= limit {
        PushesStayWithin(list, vals, limit);
      }
    } else {
      var vals: seq<Bytes> := [[]];
      assert PushAll([], vals[..0], limit) == ([], []);
      assert |PushAll([], vals, limit).0| == 1;
    }
  }

  lemma {:induction false} PushesStayWithin(list: seq<Bytes>, vals: seq<Bytes>, limit: nat)
    requires |list| <= limit && limit >= 1
    ensures |PushAll(list, vals, limit).0| <= limit
  {
    if vals != [] {
      PushesStayWithin(list, vals[..|vals| - 1], limit);
    }
  }

  // ---------------------------------------------------------------------------------------------
  // Iteration
  // ---------------------------------------------------------------------------------------------

  /** Reads the list in pages of 21 (bounds 0 and 20 are inclusive) and hands values out one by one. */
  class ListIterator {
    const list: RedisStorageList
    const limit: nat := 20
    var start: nat
    var cached: seq<Bytes>

    /** What the iterator has still to hand out, as long as the list stays as it is. */
    ghost function Rest(): (r: seq<Bytes>)
      reads this, list
    {
      Reverse(cached) + if start <= |list.items| then list.items[start..] else []
    }

    constructor (list: RedisStorageList)
      ensures this.list == list && Rest() == list.items
    {
      this.list, start, cached := list, 0, [];
    }

    method PopCached() returns (val: Bytes)
      requires cached != []
      modifies this`cached
      ensures old(Rest()) == [val] + Rest()
    {
      val := cached[|cached| - 1];
      cached := cached[..|cached| - 1];
      assert old(Reverse(cached)) == [val] + Reverse(cached);
    }

    method Next() returns (r: Option<Bytes>)
      modifies this
      ensures r == if old(Rest()) == [] then None else Some(old(Rest())[0])
      ensures Rest() == if old(Rest()) == [] then [] else old(Rest())[1..]
    {
      if cached != [] {
        var val := PopCached();
        return Some(val);
      }
      var any := FetchPage();
      if !any {
        return None;
      }
      var val := PopCached();
      r := Some(val);
    }

    method FetchPage() returns (any: bool)
      requires cached == []
      modifies this
      ensures Rest() == old(Rest()) && any == (Rest() != []) == (cached != [])
      ensures |cached| == if |Rest()| <= 21 then |Rest()| else 21
    {
      ghost var items, from := list.items, start;
      assert Rest() == if from <= |items| then items[from..] else [];
      var vals := list.Range(start, start + limit);
      if vals == [] {
        return false;
      }
      start := start + |vals|;
      cached := Reverse(vals);
      ReverseTwice(vals);
      assert Rest() == vals + items[from + |vals|..];
      Page(items, from, vals);
      return true;
    }

    /** Calling `Next` n times on an unchanged list yields its values in order, then None forever. */
    method NextMany(n: nat) returns (out: seq<Option<Bytes>>)
      modifies this
      ensures |out| == n
      ensures forall i :: 0 <= i < n ==> out[i] == Yielded(old(Rest()), i)
    {
      out := [];
      ghost var all := Rest();
      while |out| < n
        invariant |out| <= n
        invariant Rest() == Left(all, |out|)
        invariant out == Yields(all, |out|)
      {
        LeftStep(all, |out|);
        var r := Next();
        out := out + [r];
      }
    }
  }

  /** A page from the front of the unread part leaves the rest unread. */
  lemma Page(items: seq<Bytes>, start: nat, vals: seq<Bytes>)
    requires start + |vals| <= |items| && vals == items[start..start + |vals|]
    ensures items[start..] == vals + items[start + |vals|..]
  {
  }

  ghost function Yielded(all: seq<Bytes>, i: nat): (r: Option<Bytes>) {
    if i < |all| then Some(all[i]) else None
  }

  ghost function Yields(all: seq<Bytes>, n: nat): (r: seq<Option<Bytes>>)
    ensures |r| == n && forall i :: 0 <= i < n ==> r[i] == Yielded(all, i)
  {
    if n == 0 then [] else Yields(all, n - 1) + [Yielded(all, n - 1)]
  }

  ghost function Left(all: seq<Bytes>, n: nat): (r: seq<Bytes>) {
    if n <= |all| then all[n..] else []
  }

  lemma LeftStep(all: seq<Bytes>, n: nat)
    ensures Left(all, n) == [] ==> Yielded(all, n) == None && Left(all, n + 1) == []
    ensures Left(all, n) != [] ==> Yielded(all, n) == Some(Left(all, n)[0]) && Left(all, n + 1) == Left(all, n)[1..]
  {
  }
}
