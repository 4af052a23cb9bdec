/**
 When a node calls the cluster available. Counts are 64-bit unsigned numbers, and subtraction wraps
 around as in a build without overflow checks.
 */
module Availability {
  import opened Basics

  const USIZE_MAX: nat := 0xFFFF_FFFF_FFFF_FFFF

  datatype Role = Follower | Candidate | Leader | PreCandidate

  /** For each peer whether its breaker lets calls through, if the peer is connected at all. */
  datatype Status = Status(id: nat, leaderId: nat, role: Role, peers: map<nat, Option<bool>>) {
    /** A hash map's length is a 64-bit number. */
    predicate Valid() {
      |peers| <= USIZE_MAX
    }
  }

  function Minus1(n: nat): (r: nat) {
    if n == 0 then USIZE_MAX else n - 1
  }

  function Up(s: Status): (r: set<nat>) {
    set k | k in s.peers && s.peers[k] == Some(true)
  }

  /** All other nodes, and the available ones among them as the code counts them. */
  function GetCount(s: Status): (r: (nat, nat)) {
    if s.id in s.peers then (Minus1(|s.peers|), Minus1(|Up(s)|)) else (|s.peers|, |Up(s)|)
  }

  predicate Enough(s: Status) {
    var (all, available) := GetCount(s);
    available >= all / 2 + all % 2
  }

  predicate Available(s: Status) {
    if s.role == Leader then Enough(s)
    else if s.leaderId > 0 then s.leaderId in s.peers && s.peers[s.leaderId] == Some(true)
    else Enough(s)
  }

  /** The branches that count: the node leads, or nobody does. */
  predicate Counts(s: Status) {
    s.role == Leader || s.leaderId == 0
  }

  ghost function Members(s: Status): (r: set<nat>) {
    s.peers.Keys + {s.id}
  }

  /** The node itself and the peers it can reach. */
  ghost function Reachable(s: Status): (r: set<nat>) {
    Up(s) + {s.id}
  }

  ghost predicate Majority(part: set<nat>, whole: set<nat>) {
    2 * |part| > |whole|
  }

  predicate OwnEntryIsUp(s: Status) {
    s.id in s.peers ==> s.peers[s.id] == Some(true)
  }

  /** The own entry is deducted from a count of zero. */
  predicate Underflows(s: Status) {
    !OwnEntryIsUp(s) && Up(s) == {}
  }

  lemma Sizes(s: Status)
    requires s.Valid()
    ensures |Members(s)| == GetCount(s).0 + 1
    ensures OwnEntryIsUp(s) ==> |Reachable(s)| == GetCount(s).1 + 1
    ensures !OwnEntryIsUp(s) ==> |Reachable(s)| == |Up(s)| + 1 <= |s.peers|
    ensures !OwnEntryIsUp(s) ==> GetCount(s).1 == Minus1(|Up(s)|)
  {
    assert |s.peers| == |s.peers.Keys|;
    if s.id in s.peers {
      assert Members(s) == s.peers.Keys;
      if OwnEntryIsUp(s) {
        assert Reachable(s) == Up(s);
      } else {
        SubsetSize(Reachable(s), s.peers.Keys);
      }
    }
  }

  /**
   The counting branches report a strict majority exactly, except when the own entry is marked down: it
   is deducted although it was never counted. With nobody up the count wraps around, which is right
   only in a cluster of one; otherwise one node too few is seen, which matters exactly when the others
   are just enough.
   */
  lemma ReportsMajorityIff(s: Status)
    requires s.Valid() && Counts(s)
    ensures (Available(s) <==> Majority(Reachable(s), Members(s)))
      <==> OwnEntryIsUp(s) || if Up(s) == {} then |s.peers| == 1 else |Up(s)| != |s.peers| / 2
  {
    Sizes(s);
  }

  /** Unless the count underflows, a node that reports available this way reaches a majority. */
  lemma AvailableReachesMajority(s: Status)
    requires s.Valid() && Counts(s) && Available(s) && !Underflows(s)
    ensures Majority(Reachable(s), Members(s))
  {
    Sizes(s);
  }

  lemma MajoritiesMeet(a: set<nat>, b: set<nat>, whole: set<nat>)
    requires a <= whole && b <= whole && Majority(a, whole) && Majority(b, whole)
    ensures a * b != {}
  {
    if a * b == {} {
      assert |a + b| == |a| + |b|;
      SubsetSize(a + b, whole);
    }
  }

  /**
   Two nodes of one cluster that both report it available this way can reach a common node exactly when
   neither count underflows, or each node whose count does is itself within reach of the other.
   */
  lemma AvailableNodesOverlapIff(s: Status, t: Status)
    requires s.Valid() && t.Valid() && Counts(s) && Counts(t)
    requires Available(s) && Available(t) && Members(s) == Members(t)
    ensures Reachable(s) * Reachable(t) != {} <==>
      (Underflows(s) ==> s.id in Reachable(t)) && (Underflows(t) ==> t.id in Reachable(s))
  {
    if Underflows(s) || Underflows(t) {
      if Underflows(s) {
        OnlyItselfMeets(s, t);
      }
      if Underflows(t) {
        OnlyItselfMeets(t, s);
      }
      assert Reachable(s) * Reachable(t) == Reachable(t) * Reachable(s);
    } else {
      AvailableReachesMajority(s);
      AvailableReachesMajority(t);
      MajoritiesMeet(Reachable(s), Reachable(t), Members(s));
    }
  }

  lemma OnlyItselfMeets(s: Status, t: Status)
    requires Underflows(s)
    ensures Reachable(s) * Reachable(t) != {} <==> s.id in Reachable(t)
  {
    assert Reachable(s) == {s.id};
    if s.id in Reachable(t) {
      assert s.id in Reachable(s) * Reachable(t);
    }
  }

  /**
   A node that has a leader and does not lead itself reports exactly whether it can reach that leader; so
   two such nodes that both report the cluster available can both reach it, and it can reach itself.
   */
  lemma FollowersReachTheirLeader(s: Status, t: Status)
    requires s.role != Leader && s.leaderId > 0
    ensures Available(s) <==> s.leaderId in s.peers && s.peers[s.leaderId] == Some(true)
    ensures Available(s) && t.role != Leader && t.leaderId == s.leaderId && Available(t) ==>
      s.leaderId in Reachable(s) * Reachable(t)
    ensures Available(s) && t.id == s.leaderId ==> s.leaderId in Reachable(s) * Reachable(t)
  {
  }

  /** With everybody down, a leader and a node without one both report available and share nobody. */
  lemma EverybodyDownIsAvailable() returns (s: Status, t: Status)
    ensures s.Valid() && t.Valid() && Counts(s) && Counts(t) && Members(s) == Members(t)
    ensures Available(s) && Available(t) && Reachable(s) * Reachable(t) == {}
    ensures !Majority(Reachable(s), Members(s))
  {
    var peers: map<nat, Option<bool>> := map[1 := Some(false), 2 := Some(false), 3 := Some(false)];
    s, t := Status(1, 1, Leader, peers), Status(2, 0, Follower, peers);
    assert peers.Keys == {1, 2, 3} && |peers| == |peers.Keys|;
    assert Up(s) == {} && Up(t) == {};
    assert Reachable(s) == {1} && Reachable(t) == {2} && Members(s) == {1, 2, 3} == Members(t);
  }
}
