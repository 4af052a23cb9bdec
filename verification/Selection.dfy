/** When blocks taken out of a sequence of blocks, one after the other, keep the order of the whole. */
module Selection {
  import opened Basics

  /** The first n blocks, one after the other. */
  function JoinTo<T>(blocks: seq<seq<T>>, n: nat): (r: seq<T>)
    requires n <= |blocks|
  {
    if n == 0 then [] else JoinTo(blocks, n - 1) + blocks[n - 1]
  }

  function Join<T>(blocks: seq<seq<T>>): (r: seq<T>) {
    JoinTo(blocks, |blocks|)
  }

  /** `picks` are the places of the part in the whole, in order. */
  ghost predicate Selects<T>(picks: seq<nat>, part: seq<T>, whole: seq<T>) {
    && |picks| == |part|
    && Increasing(picks)
    && forall i :: 0 <= i < |picks| ==> picks[i] < |whole| && whole[picks[i]] == part[i]
  }

  predicate Increasing(s: seq<nat>) {
    forall i, j :: 0 <= i < j < |s| ==> s[i] < s[j]
  }

  ghost predicate NoRepeats<T>(s: seq<T>) {
    forall i, j :: 0 <= i < j < |s| ==> s[i] != s[j]
  }

  /** `taken` are the blocks with the given numbers, none of them empty. */
  ghost predicate TakenBy<T>(blocks: seq<seq<T>>, nums: seq<nat>, taken: seq<seq<T>>) {
    && |taken| == |nums|
    && forall i :: 0 <= i < |nums| ==> nums[i] < |blocks| && taken[i] == blocks[nums[i]] && |taken[i]| > 0
  }

  lemma {:induction false} JoinPrefix<T>(blocks: seq<seq<T>>, k: nat, l: nat)
    requires k <= l <= |blocks|
    ensures JoinTo(blocks, k) <= JoinTo(blocks, l)
    decreases l
  {
    if k < l {
      JoinPrefix(blocks, k, l - 1);
    }
  }

  /** The items of a block lie where the blocks before it end. */
  lemma JoinAt<T>(blocks: seq<seq<T>>, k: nat, l: nat, t: nat)
    requires k < l <= |blocks| && t < |blocks[k]|
    ensures |JoinTo(blocks, k)| + t < |JoinTo(blocks, k + 1)| <= |JoinTo(blocks, l)|
    ensures JoinTo(blocks, l)[|JoinTo(blocks, k)| + t] == blocks[k][t]
  {
    var before := JoinTo(blocks, k);
    assert (before + blocks[k])[|before| + t] == blocks[k][t];
    JoinPrefix(blocks, k + 1, l);
  }

  lemma {:induction false} JoinFrame<T>(a: seq<seq<T>>, b: seq<seq<T>>, n: nat)
    requires n <= |a| && n <= |b| && forall i :: 0 <= i < n ==> a[i] == b[i]
    ensures JoinTo(a, n) == JoinTo(b, n)
  {
    if n > 0 {
      JoinFrame(a, b, n - 1);
    }
  }

  lemma SliceConcat<T>(s: seq<T>, a: nat, b: nat, c: nat)
    requires a <= b <= c <= |s|
    ensures s[a..c] == s[a..b] + s[b..c]
  {
  }

  /** A block lies between the ends of the blocks before it and of those up to it. */
  lemma BlockSlice<T>(blocks: seq<seq<T>>, k: nat)
    requires k < |blocks|
    ensures |JoinTo(blocks, k)| <= |JoinTo(blocks, k + 1)| <= |Join(blocks)|
    ensures Join(blocks)[|JoinTo(blocks, k)|..|JoinTo(blocks, k + 1)|] == blocks[k]
  {
    JoinPrefix(blocks, k + 1, |blocks|);
    var before := JoinTo(blocks, k);
    assert JoinTo(blocks, k + 1) == before + blocks[k];
    assert (before + blocks[k])[|before|..] == blocks[k];
  }

  /** The blocks between two places, joined, are what lies between their ends. */
  lemma {:induction false} JoinSlice<T>(blocks: seq<seq<T>>, k: nat, l: nat)
    requires k <= l <= |blocks|
    ensures |JoinTo(blocks, k)| <= |JoinTo(blocks, l)| <= |Join(blocks)|
    ensures Join(blocks)[|JoinTo(blocks, k)|..|JoinTo(blocks, l)|] == Join(blocks[k..l])
    decreases l
  {
    JoinPrefix(blocks, k, l);
    JoinPrefix(blocks, l, |blocks|);
    if k < l {
      JoinSlice(blocks, k, l - 1);
      BlockSlice(blocks, l - 1);
      SliceConcat(Join(blocks), |JoinTo(blocks, k)|, |JoinTo(blocks, l - 1)|, |JoinTo(blocks, l)|);
      JoinFrame(blocks[k..l], blocks[k..l - 1], l - 1 - k);
    }
  }

  lemma IncreasingConcat(a: seq<nat>, b: seq<nat>, m: nat)
    requires Increasing(a) && Increasing(b)
    requires (forall i :: 0 <= i < |a| ==> a[i] < m) && forall i :: 0 <= i < |b| ==> m <= b[i]
    ensures Increasing(a + b)
  {
  }

  lemma BlockSelects<T>(blocks: seq<seq<T>>, k: nat)
    requires k < |blocks|
    ensures |JoinTo(blocks, k + 1)| == |JoinTo(blocks, k)| + |blocks[k]|
    ensures Selects(Range(|JoinTo(blocks, k)|, |JoinTo(blocks, k + 1)|), blocks[k], Join(blocks))
  {
    var picks := Range(|JoinTo(blocks, k)|, |JoinTo(blocks, k + 1)|);
    forall t | 0 <= t < |picks| ensures picks[t] < |Join(blocks)| && Join(blocks)[picks[t]] == blocks[k][t] {
      JoinAt(blocks, k, |blocks|, t);
    }
  }

  lemma SelectsConcat<T>(p: seq<nat>, q: seq<nat>, a: seq<T>, b: seq<T>, whole: seq<T>, m: nat)
    requires Selects(p, a, whole) && Selects(q, b, whole)
    requires (forall i :: 0 <= i < |p| ==> p[i] < m) && forall i :: 0 <= i < |q| ==> m <= q[i]
    ensures Selects(p + q, a + b, whole)
  {
    IncreasingConcat(p, q, m);
  }

  ghost predicate SelectsBelow<T>(picks: seq<nat>, part: seq<T>, whole: seq<T>, bound: nat) {
    Selects(picks, part, whole) && forall i :: 0 <= i < |picks| ==> picks[i] < bound
  }

  lemma SelectBlock<T>(blocks: seq<seq<T>>, picks: seq<nat>, part: seq<T>, k: nat, top: nat) returns (more: seq<nat>)
    requires k < top <= |blocks| && SelectsBelow(picks, part, Join(blocks), |JoinTo(blocks, k)|)
    ensures SelectsBelow(more, part + blocks[k], Join(blocks), |JoinTo(blocks, top)|)
  {
    BlockSelects(blocks, k);
    var own := Range(|JoinTo(blocks, k)|, |JoinTo(blocks, k + 1)|);
    SelectsConcat(picks, own, part, blocks[k], Join(blocks), |JoinTo(blocks, k)|);
    JoinPrefix(blocks, k + 1, top);
    more := picks + own;
  }

  /** Blocks of increasing numbers below `top` are selected in order from the blocks before it. */
  lemma {:induction false} IncreasingSelects<T>(
    blocks: seq<seq<T>>, nums: seq<nat>, taken: seq<seq<T>>, n: nat, top: nat)
    returns (picks: seq<nat>)
    requires TakenBy(blocks, nums, taken) && Increasing(nums) && n <= |nums| && top <= |blocks|
    requires forall i :: 0 <= i < n ==> nums[i] < top
    ensures SelectsBelow(picks, JoinTo(taken, n), Join(blocks), |JoinTo(blocks, top)|)
    decreases n
  {
    if n == 0 {
      picks := [];
    } else {
      picks := IncreasingSelects(blocks, nums, taken, n - 1, nums[n - 1]);
      picks := SelectBlock(blocks, picks, JoinTo(taken, n - 1), nums[n - 1], top);
    }
  }

  /** Where items are distinct, the first item of a taken block can only be picked where its block lies. */
  lemma PickOfBlock<T>(blocks: seq<seq<T>>, nums: seq<nat>, taken: seq<seq<T>>, picks: seq<nat>, whole: seq<T>, a: nat)
    requires TakenBy(blocks, nums, taken) && a < |nums| && Join(blocks) <= whole && NoRepeats(whole)
    requires Selects(picks, Join(taken), whole)
    ensures |JoinTo(taken, a)| < |picks| && picks[|JoinTo(taken, a)|] == |JoinTo(blocks, nums[a])|
  {
    JoinAt(taken, a, |taken|, 0);
    JoinAt(blocks, nums[a], |blocks|, 0);
    var at, p := |JoinTo(taken, a)|, |JoinTo(blocks, nums[a])|;
    assert whole[picks[at]] == whole[p];
  }

  lemma TakenInOrder<T>(taken: seq<seq<T>>, a: nat, b: nat)
    requires a < b <= |taken| && |taken[a]| > 0
    ensures |JoinTo(taken, a)| < |JoinTo(taken, b)|
  {
    JoinPrefix(taken, a + 1, b);
  }

  lemma SelectedIncrease<T>(
    blocks: seq<seq<T>>, nums: seq<nat>, taken: seq<seq<T>>, picks: seq<nat>, whole: seq<T>, a: nat, b: nat)
    requires TakenBy(blocks, nums, taken) && a < b < |nums| && Join(blocks) <= whole && NoRepeats(whole)
    requires Selects(picks, Join(taken), whole)
    ensures nums[a] < nums[b]
  {
    PickOfBlock(blocks, nums, taken, picks, whole, a);
    PickOfBlock(blocks, nums, taken, picks, whole, b);
    TakenInOrder(taken, a, b);
    if nums[b] <= nums[a] {
      JoinPrefix(blocks, nums[b], nums[a]);
    }
  }

  /** Taken blocks, joined, are an in-order selection of the whole exactly when their numbers go up. */
  lemma SelectedIff<T>(blocks: seq<seq<T>>, nums: seq<nat>, taken: seq<seq<T>>, whole: seq<T>)
    requires TakenBy(blocks, nums, taken) && Join(blocks) <= whole && NoRepeats(whole)
    ensures (exists picks :: Selects(picks, Join(taken), whole)) <==> Increasing(nums)
  {
    if Increasing(nums) {
      var picks := IncreasingSelects(blocks, nums, taken, |nums|, |blocks|);
      assert Selects(picks, Join(taken), whole);
    }
    if picks :| Selects(picks, Join(taken), whole) {
      forall a, b | 0 <= a < b < |nums| ensures nums[a] < nums[b] {
        SelectedIncrease(blocks, nums, taken, picks, whole, a, b);
      }
    }
  }
}
