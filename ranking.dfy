/** Per-group ordering by document position, shared by the caption and note
    renumbering. Each item carries a group (its caption or note type) and a
    position; within a group, items are ordered by position, ties broken by
    list order, which is the order a stable sort by position produces. An
    item's rank is the number of items of its group that come before it. */
module Ranking {

  datatype Key = Key(group: string, pos: int)

  /** Item `j` comes before item `i` in the stable position order of their
      common group. */
  predicate Precedes(ks: seq<Key>, j: nat, i: nat)
    requires j < |ks| && i < |ks|
  {
    ks[j].group == ks[i].group &&
    (ks[j].pos < ks[i].pos || (ks[j].pos == ks[i].pos && j < i))
  }

  /** Number of items among the first `k` that precede item `i`. */
  function CountBefore(ks: seq<Key>, i: nat, k: nat): (n: nat)
    requires i < |ks| && k <= |ks|
    ensures n <= k
  {
    if k == 0 then 0
    else CountBefore(ks, i, k - 1) + (if Precedes(ks, k - 1, i) then 1 else 0)
  }

  /** Zero-based rank of item `i` within its group. */
  function Rank(ks: seq<Key>, i: nat): nat
    requires i < |ks|
  {
    CountBefore(ks, i, |ks|)
  }

  /** Number of items among the first `k` that belong to group `g`. */
  function GroupSize(ks: seq<Key>, g: string, k: nat): (n: nat)
    requires k <= |ks|
    ensures n <= k
  {
    if k == 0 then 0
    else GroupSize(ks, g, k - 1) + (if ks[k - 1].group == g then 1 else 0)
  }

  /** The rank of an item is computed by one pass over the list. */
  method ComputeRank(ks: seq<Key>, i: nat) returns (r: nat)
    requires i < |ks|
    ensures r == Rank(ks, i)
  {
    r := 0;
    for j := 0 to |ks|
      invariant r == CountBefore(ks, i, j)
    {
      if ks[j].group == ks[i].group && (ks[j].pos < ks[i].pos || (ks[j].pos == ks[i].pos && j < i)) {
        r := r + 1;
      }
    }
  }

  lemma {:induction false} CountBeforeBound(ks: seq<Key>, i: nat, k: nat)
    requires i < |ks| && k <= |ks|
    ensures CountBefore(ks, i, k) + (if i < k then 1 else 0) <= GroupSize(ks, ks[i].group, k)
  {
    if k > 0 {
      CountBeforeBound(ks, i, k - 1);
    }
  }

  /** Ranks of a group of `m` items lie in `0..m-1`. */
  lemma RankBound(ks: seq<Key>, i: nat)
    requires i < |ks|
    ensures Rank(ks, i) < GroupSize(ks, ks[i].group, |ks|)
  {
    CountBeforeBound(ks, i, |ks|);
  }

  lemma {:induction false} CountBeforeMono(ks: seq<Key>, j: nat, i: nat, k: nat)
    requires j < |ks| && i < |ks| && k <= |ks|
    requires Precedes(ks, j, i)
    ensures CountBefore(ks, j, k) + (if j < k then 1 else 0) <= CountBefore(ks, i, k)
  {
    if k > 0 {
      CountBeforeMono(ks, j, i, k - 1);
    }
  }

  /** Ranks follow the stable position order. */
  lemma RankMonotone(ks: seq<Key>, j: nat, i: nat)
    requires j < |ks| && i < |ks|
    requires Precedes(ks, j, i)
    ensures Rank(ks, j) < Rank(ks, i)
  {
    CountBeforeMono(ks, j, i, |ks|);
  }

  /** Two distinct items of the same group never share a rank. */
  lemma RankInjective(ks: seq<Key>, i: nat, j: nat)
    requires i < |ks| && j < |ks| && i != j
    requires ks[i].group == ks[j].group
    ensures Rank(ks, i) != Rank(ks, j)
  {
    if Precedes(ks, j, i) {
      RankMonotone(ks, j, i);
    } else {
      RankMonotone(ks, i, j);
    }
  }

  /** Rank order and position order agree, in both directions. */
  lemma RankOrder(ks: seq<Key>, i: nat, j: nat)
    requires i < |ks| && j < |ks|
    requires ks[i].group == ks[j].group
    ensures Rank(ks, j) < Rank(ks, i) <==> Precedes(ks, j, i)
  {
    if Precedes(ks, j, i) {
      RankMonotone(ks, j, i);
    } else if i != j {
      RankMonotone(ks, i, j);
    }
  }

  /** The members of group `g` among the first `k` items. */
  function Members(ks: seq<Key>, g: string, k: nat): set<nat>
    requires k <= |ks|
  {
    set i: nat | i < k && ks[i].group == g
  }

  lemma {:induction false} MembersSize(ks: seq<Key>, g: string, k: nat)
    requires k <= |ks|
    ensures |Members(ks, g, k)| == GroupSize(ks, g, k)
  {
    if k > 0 {
      MembersSize(ks, g, k - 1);
      var before, now := Members(ks, g, k - 1), Members(ks, g, k);
      assert k - 1 !in before;
      if ks[k - 1].group == g {
        assert now == before + {k - 1};
      } else {
        assert now == before;
      }
    }
  }

  function RanksOf(ks: seq<Key>, s: set<nat>): set<nat>
    requires forall i :: i in s ==> i < |ks|
  {
    set i | i in s :: Rank(ks, i)
  }

  lemma RanksOfSize(ks: seq<Key>, g: string, s: set<nat>)
    requires forall i :: i in s ==> i < |ks| && ks[i].group == g
    ensures |RanksOf(ks, s)| == |s|
  {
    if s != {} {
      var x :| x in s;
      var t := s - {x};
      RanksOfSize(ks, g, t);
      forall i | i in t
        ensures Rank(ks, i) != Rank(ks, x)
      {
        RankInjective(ks, i, x);
      }
      assert RanksOf(ks, s) == RanksOf(ks, t) + {Rank(ks, x)};
    }
  }

  /** The numbers `0..m-1`. */
  function Below(m: nat): (s: set<nat>)
    ensures |s| == m
    ensures forall r: nat :: r in s <==> r < m
  {
    if m == 0 then {} else Below(m - 1) + {m - 1}
  }

  /** Every rank in `0..m-1` is taken by some member of a group of size
      `m`: together with `RankBound` and `RankInjective`, the ranks of a
      group are exactly `0..m-1`. */
  lemma RanksFillGroup(ks: seq<Key>, g: string, r: nat)
    requires r < GroupSize(ks, g, |ks|)
    ensures exists i :: 0 <= i < |ks| && ks[i].group == g && Rank(ks, i) == r
  {
    var s := Members(ks, g, |ks|);
    var m := GroupSize(ks, g, |ks|);
    MembersSize(ks, g, |ks|);
    RanksOfSize(ks, g, s);
    var ranks := RanksOf(ks, s);
    forall x | x in ranks
      ensures x in Below(m)
    {
      var i :| i in s && Rank(ks, i) == x;
      RankBound(ks, i);
    }
    assert ranks <= Below(m);
    assert |Below(m) - ranks| == 0;
    assert Below(m) - ranks == {};
    assert r in Below(m);
  }
}
