/** Round-robin merging of several best-first lists, so that a cap on the result is shared between them. */
module Interleaving {
  import opened Multiples

  /** One result: the list it comes from, and its rank there. */
  datatype Place = Place(rank: nat, list: nat)

  predicate Holds<T>(lists: seq<seq<T>>, place: Place) {
    place.list < |lists| && place.rank < |lists[place.list]|
  }

  /** Where a result stands in the round-robin order. */
  function Code(n: nat, place: Place): nat {
    place.rank * n + place.list
  }

  ghost predicate Increasing(n: nat, from: seq<Place>) {
    forall p, q :: 0 <= p < q < |from| ==> Code(n, from[p]) < Code(n, from[q])
  }

  /** `merged` holds every result of every list once, in round-robin order; `from` says where each comes from. */
  ghost predicate RoundRobin<T>(lists: seq<seq<T>>, merged: seq<T>, from: seq<Place>) {
    && |from| == |merged| && Increasing(|lists|, from)
    && (forall p :: 0 <= p < |from| ==> Holds(lists, from[p]) && merged[p] == lists[from[p].list][from[p].rank])
    && forall place :: Holds(lists, place) ==> place in from
  }

  lemma {:induction false} CodeAtLeast(n: nat, from: seq<Place>, p: nat)
    requires Increasing(n, from) && p < |from|
    ensures Code(n, from[p]) >= p
  {
    if p > 0 {
      CodeAtLeast(n, from, p - 1);
    }
  }

  /** Any cap on the merged list leaves every list its equal share: of `n` lists, the first `cap / n` results of each,
      or all of it if it is shorter. */
  lemma EveryListHasItsShare<T>(lists: seq<seq<T>>, merged: seq<T>, from: seq<Place>, cap: nat, place: Place)
    requires RoundRobin(lists, merged, from) && cap <= |merged| && |lists| > 0
    requires Holds(lists, place) && place.rank < cap / |lists|
    ensures place in from[..cap]
  {
    var p :| 0 <= p < |from| && from[p] == place;
    CodeAtLeast(|lists|, from, p);
    OneMoreTimes(|lists|, place.rank, cap / |lists|);
    assert (cap / |lists|) * |lists| <= cap;
    assert from[..cap][p] == place;
  }

  /** Nothing appears twice, and each list keeps its own order. */
  lemma ListsKeepOrder<T>(lists: seq<seq<T>>, merged: seq<T>, from: seq<Place>, p: nat, q: nat)
    requires RoundRobin(lists, merged, from) && p < q < |from| && from[p].list == from[q].list
    ensures from[p].rank < from[q].rank
  {
    if from[q].rank < from[p].rank {
      OneMoreTimes(|lists|, from[q].rank, from[p].rank);
    }
  }

  /** What the loops have merged when `rank` is under way and `list` comes next. */
  ghost predicate MergedUpTo<T>(lists: seq<seq<T>>, merged: seq<T>, from: seq<Place>, rank: nat, list: nat) {
    && list <= |lists| && |from| == |merged| && Increasing(|lists|, from)
    && (forall p :: 0 <= p < |from| ==> Holds(lists, from[p]) && merged[p] == lists[from[p].list][from[p].rank])
    && (forall p :: 0 <= p < |from| ==> Code(|lists|, from[p]) < Code(|lists|, Place(rank, list)))
    && forall place :: Holds(lists, place) && Code(|lists|, place) < Code(|lists|, Place(rank, list)) ==> place in from
  }

  lemma NextPlace<T>(lists: seq<seq<T>>, rank: nat, list: nat, place: Place)
    requires Holds(lists, place) && list < |lists|
    requires Code(|lists|, place) < Code(|lists|, Place(rank, list + 1))
    ensures Code(|lists|, place) < Code(|lists|, Place(rank, list)) || place == Place(rank, list)
  {
    if Code(|lists|, place) >= Code(|lists|, Place(rank, list)) {
      if place.rank < rank {
        OneMoreTimes(|lists|, place.rank, rank);
      } else if rank < place.rank {
        OneMoreTimes(|lists|, rank, place.rank);
      }
    }
  }

  lemma MergeOne<T>(lists: seq<seq<T>>, merged: seq<T>, from: seq<Place>, rank: nat, list: nat)
    requires MergedUpTo(lists, merged, from, rank, list) && list < |lists|
    ensures rank < |lists[list]| ==>
              MergedUpTo(lists, merged + [lists[list][rank]], from + [Place(rank, list)], rank, list + 1)
    ensures rank >= |lists[list]| ==> MergedUpTo(lists, merged, from, rank, list + 1)
  {
    var taken := rank < |lists[list]|;
    var next := if taken then from + [Place(rank, list)] else from;
    forall place | Holds(lists, place) && Code(|lists|, place) < Code(|lists|, Place(rank, list + 1))
      ensures place in next
    {
      NextPlace(lists, rank, list, place);
      assert taken ==> next[|from|] == Place(rank, list);
      if place in from {
        var p :| 0 <= p < |from| && from[p] == place;
        assert next[p] == place;
      }
    }
  }

  lemma NextRank<T>(lists: seq<seq<T>>, merged: seq<T>, from: seq<Place>, rank: nat)
    requires MergedUpTo(lists, merged, from, rank, |lists|)
    ensures MergedUpTo(lists, merged, from, rank + 1, 0)
  {
    assert Code(|lists|, Place(rank, |lists|)) == Code(|lists|, Place(rank + 1, 0)) by {
      assert (rank + 1) * |lists| == rank * |lists| + |lists|;
    }
  }

  method Longest<T>(lists: seq<seq<T>>) returns (longest: nat)
    ensures forall i :: 0 <= i < |lists| ==> |lists[i]| <= longest
  {
    longest := 0;
    for i := 0 to |lists|
      invariant forall j :: 0 <= j < i ==> |lists[j]| <= longest
    {
      if |lists[i]| > longest {
        longest := |lists[i]|;
      }
    }
  }

  lemma AllMerged<T>(lists: seq<seq<T>>, merged: seq<T>, from: seq<Place>, longest: nat)
    requires MergedUpTo(lists, merged, from, longest, 0)
    requires forall i :: 0 <= i < |lists| ==> |lists[i]| <= longest
    ensures RoundRobin(lists, merged, from)
  {
    forall place | Holds(lists, place)
      ensures place in from
    {
      OneMoreTimes(|lists|, place.rank, longest);
    }
  }

  /** The lists merged: rank by rank, one result of each list that has one. */
  method Interleave<T>(lists: seq<seq<T>>) returns (merged: seq<T>)
    ensures exists from :: RoundRobin(lists, merged, from)
  {
    hide MergedUpTo;
    merged := [];
    ghost var from: seq<Place> := [];
    var longest := Longest(lists);
    assert MergedUpTo(lists, merged, from, 0, 0) by {
      NothingMerged(lists);
    }
    for rank := 0 to longest
      invariant MergedUpTo(lists, merged, from, rank, 0)
    {
      for list := 0 to |lists|
        invariant MergedUpTo(lists, merged, from, rank, list)
      {
        MergeOne(lists, merged, from, rank, list);
        if rank < |lists[list]| {
          merged := merged + [lists[list][rank]];
          from := from + [Place(rank, list)];
        }
      }
      NextRank(lists, merged, from, rank);
    }
    AllMerged(lists, merged, from, longest);
  }

  lemma NothingMerged<T>(lists: seq<seq<T>>)
    ensures MergedUpTo(lists, [], [], 0, 0)
  {
  }
}
