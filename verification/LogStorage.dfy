/**
 The log store beside the consensus library: a snapshot holder over an in-memory log that forgets
 its oldest entries.
 */
module LogStorage {

  /** Snapshot data with the log index it is labelled with. */
  datatype Snapshot<+D> = Snapshot(index: nat, data: D)

  /** What the holder knows: the snapshot it serves and the first index the log still has. */
  datatype Disk<+D> = Disk(held: Snapshot<D>, first: nat)

  /** A follower that needs `held` and the entries after it finds all of them. */
  predicate NoGap<D>(d: Disk<D>) {
    d.first <= d.held.index + 1
  }

  /** Replaces the served snapshot, then drops the entries before its index. */
  function SetSnapshot<D>(d: Disk<D>, s: Snapshot<D>): (r: Disk<D>) {
    Disk(s, if s.index <= d.first then d.first else s.index)
  }

  /** A received snapshot resets the log to the entries after it, unless the log is already past it. */
  function ApplySnapshot<D>(d: Disk<D>, s: Snapshot<D>): (r: Disk<D>) {
    Disk(s, if d.first > s.index then d.first else s.index + 1)
  }

  /** Serving a snapshot leaves no gap exactly when the log still reaches back to it. */
  lemma SetSnapshotNoGapIff<D>(d: Disk<D>, s: Snapshot<D>)
    ensures NoGap(SetSnapshot(d, s)) <==> d.first <= s.index + 1
    ensures NoGap(d) && s.index >= d.held.index ==> NoGap(SetSnapshot(d, s))
    ensures NoGap(ApplySnapshot(d, s)) <==> d.first <= s.index + 1
  {
  }

  /**
   `base` is the index of the snapshot the core log was last reset to, `start` the index of its first
   entry while it has entries. An empty core log begins after `base`.
   */
  class MemStorage<D, E> {
    var snapshot: Snapshot<D>
    var base: nat
    var start: nat
    var entries: seq<E>

    ghost predicate Valid()
      reads this
    {
      entries != [] ==> base < start
    }

    function FirstIndex(): (i: nat)
      reads this
    {
      if entries == [] then base + 1 else start
    }

    /** The index after the last one. */
    function EndIndex(): (i: nat)
      reads this
      ensures i == FirstIndex() + |entries|
    {
      if entries == [] then base + 1 else start + |entries|
    }

    ghost function Model(): (d: Disk<D>)
      reads this
    {
      Disk(snapshot, FirstIndex())
    }

    /** The entry with a given index, for indices the log has. */
    ghost function At(index: nat): (e: E)
      requires FirstIndex() <= index < EndIndex()
      reads this
    {
      entries[index - FirstIndex()]
    }

    constructor (initial: Snapshot<D>)
      ensures Valid() && Model() == Disk(initial, 1) && entries == []
    {
      snapshot, base, start, entries := initial, 0, 0, [];
    }

    /** New entries overwrite those from their first index on. The library panics outside the bounds. */
    method Append(from: nat, more: seq<E>)
      requires Valid() && (more != [] ==> FirstIndex() <= from <= EndIndex())
      modifies this`start, this`entries
      ensures Valid() && FirstIndex() == old(FirstIndex())
      ensures EndIndex() == if more == [] then old(EndIndex()) else from + |more|
      ensures forall i :: FirstIndex() <= i < EndIndex() ==>
        At(i) == if more != [] && from <= i then more[i - from] else old(At(i))
    {
      if more == [] {
        return;
      }
      var first := FirstIndex();
      entries := entries[..from - first] + more;
      start := first;
    }

    method ReplaceSnapshot(s: Snapshot<D>)
      modifies this`snapshot
      ensures snapshot == s
    {
      snapshot := s;
    }

    /**
     Drops the entries before `index`; the library panics more than one past the last of them. Exactly
     one past the last, nothing is left that remembers the index, and the log begins after `base` again.
     */
    method Compact(index: nat)
      requires Valid() && index <= EndIndex()
      modifies this`start, this`entries
      ensures Valid()
      ensures index <= old(FirstIndex()) ==> FirstIndex() == old(FirstIndex()) && entries == old(entries)
      ensures old(FirstIndex()) < index < old(EndIndex()) ==> FirstIndex() == index && EndIndex() == old(EndIndex())
      ensures old(FirstIndex()) < index == old(EndIndex()) ==> FirstIndex() == base + 1 < index && entries == []
      ensures forall i :: FirstIndex() <= i < EndIndex() ==> At(i) == old(At(i))
    {
      if index <= FirstIndex() {
        return;
      }
      entries := entries[index - start..];
      start := index;
    }

    method ApplyReceived(s: Snapshot<D>) returns (ok: bool)
      requires Valid()
      modifies this
      ensures Valid() && Model() == ApplySnapshot(old(Model()), s)
      ensures ok == (old(FirstIndex()) <= s.index)
      ensures entries == if ok then [] else old(entries)
    {
      ReplaceSnapshot(s);
      if FirstIndex() > s.index {
        return false;
      }
      base, entries := s.index, [];
      return true;
    }

    /**
     What the driver does with a finished snapshot of its own. The first index is as `SetSnapshot` says
     exactly when the label is not one past the last entry; the driver's labels are at most the last.
     */
    method Install(s: Snapshot<D>)
      requires Valid() && s.index <= EndIndex()
      modifies this
      ensures Valid() && snapshot == s
      ensures Model() == SetSnapshot(old(Model()), s) <==> !(old(FirstIndex()) < s.index == old(EndIndex()))
      ensures
        if old(FirstIndex()) < s.index == old(EndIndex()) then entries == []
        else
          && old(FirstIndex()) <= FirstIndex() && EndIndex() == old(EndIndex())
          && forall i :: FirstIndex() <= i < EndIndex() ==> At(i) == old(At(i))
    {
      ReplaceSnapshot(s);
      Compact(s.index);
    }
  }
}
