/** Spreading a row over the tastes that seeded its candidates: one per seed per pass, best first within each. */
module SeedSpread {
  import opened Options
  import opened RequestAlloc

  /** A candidate and its strongest seed; discoveries have none, and queue together. */
  datatype Pick = Pick(title: Title, seed: Option<int>)

  type Queues = map<Option<int>, seq<Pick>>

  /** The picks of one seed, in order. */
  function Of(cs: seq<Pick>, seed: Option<int>): (own: seq<Pick>)
    ensures |own| <= |cs|
  {
    if |cs| == 0 then []
    else
      var c := cs[|cs| - 1];
      Of(cs[..|cs| - 1], seed) + (if c.seed == seed then [c] else [])
  }

  lemma OfSnoc(cs: seq<Pick>, c: Pick, seed: Option<int>)
    ensures Of(cs + [c], seed) == Of(cs, seed) + (if c.seed == seed then [c] else [])
  {
    assert (cs + [c])[..|cs|] == cs;
  }

  lemma {:induction false} OfMembers(cs: seq<Pick>, seed: Option<int>)
    ensures forall c :: c in Of(cs, seed) ==> c in cs && c.seed == seed
  {
    if |cs| > 0 {
      OfMembers(cs[..|cs| - 1], seed);
    }
  }

  lemma {:induction false} OfStarts(cs: seq<Pick>)
    requires |cs| > 0
    ensures |Of(cs, cs[0].seed)| > 0 && Of(cs, cs[0].seed)[0] == cs[0]
  {
    if |cs| > 1 {
      OfStarts(cs[..|cs| - 1]);
    } else {
      assert cs == [] + [cs[0]];
      OfSnoc([], cs[0], cs[0].seed);
    }
  }

  lemma {:induction false} OfCounts(cs: seq<Pick>, c: Pick)
    ensures multiset(cs)[c] == multiset(Of(cs, c.seed))[c]
  {
    if |cs| > 0 {
      OfCounts(cs[..|cs| - 1], c);
      assert cs == cs[..|cs| - 1] + [cs[|cs| - 1]];
    }
  }

  lemma SameOfSameLength(a: seq<Pick>, b: seq<Pick>)
    requires forall seed :: Of(a, seed) == Of(b, seed)
    ensures |a| == |b|
  {
    forall c
      ensures multiset(a)[c] == multiset(b)[c]
    {
      OfCounts(a, c);
      OfCounts(b, c);
    }
    assert multiset(a) == multiset(b);
    assert |multiset(a)| == |a| && |multiset(b)| == |b|;
  }

  // ----- the spread -----

  /** What has been picked of each seed, followed by what is still queued, is all the seed's candidates in order. */
  ghost predicate Shared(candidates: seq<Pick>, queues: Queues, picked: seq<Pick>) {
    && (forall seed :: seed in queues ==> Of(picked, seed) + queues[seed] == Of(candidates, seed))
    && (forall seed :: seed !in queues ==> Of(candidates, seed) == [] && Of(picked, seed) == [])
  }

  /** Seed `order[j]` has had `t` turns, and one more if `j < i`; only an exhausted one has fewer picks than turns. */
  ghost predicate TurnsHad(queues: Queues, picked: seq<Pick>, order: seq<Option<int>>, t: nat, i: nat) {
    forall j :: 0 <= j < |order| ==> HadTurns(queues, picked, order[j], t + (if j < i then 1 else 0))
  }

  ghost predicate HadTurns(queues: Queues, picked: seq<Pick>, seed: Option<int>, turns: nat) {
    && seed in queues && |Of(picked, seed)| <= turns
    && (|Of(picked, seed)| < turns ==> queues[seed] == [])
  }

  ghost predicate Listing(order: seq<Option<int>>, queues: Queues) {
    && (forall seed :: seed in order <==> seed in queues)
    && forall i, j :: 0 <= i < j < |order| ==> order[i] != order[j]
  }

  ghost predicate Spreading(candidates: seq<Pick>, queues: Queues, picked: seq<Pick>, order: seq<Option<int>>,
                            t: nat, i: nat)
  {
    && Shared(candidates, queues, picked) && Listing(order, queues) && TurnsHad(queues, picked, order, t, i)
    && (|picked| > 0 ==> |candidates| > 0 && picked[0] == candidates[0])
  }

  /** Two seeds' shares differ by more than one only where the smaller one has nothing left to give. */
  ghost predicate EvenlySpread(candidates: seq<Pick>, picked: seq<Pick>) {
    forall a, b :: |Of(picked, a)| + 1 < |Of(picked, b)| ==> Of(picked, a) == Of(candidates, a)
  }

  /** The best candidate of the one seed ranks before any of the other's. */
  ghost predicate Ahead(candidates: seq<Pick>, a: Option<int>, b: Option<int>) {
    exists p :: 0 <= p < |candidates| && candidates[p].seed == a
                && forall q :: 0 <= q <= p ==> candidates[q].seed != b
  }

  /** A seed has no fewer picks than one behind it, unless it has nothing left to give. */
  ghost predicate BestSeedsLead(candidates: seq<Pick>, picked: seq<Pick>) {
    forall a, b :: Ahead(candidates, a, b) ==>
      |Of(picked, a)| >= |Of(picked, b)| || Of(picked, a) == Of(candidates, a)
  }

  ghost predicate WellSpread(candidates: seq<Pick>, picked: seq<Pick>) {
    && EvenlySpread(candidates, picked) && BestSeedsLead(candidates, picked)
    && forall seed :: Of(picked, seed) <= Of(candidates, seed)
  }

  /** However few of the picks are taken, they are well spread. */
  ghost predicate SpreadThroughout(candidates: seq<Pick>, picked: seq<Pick>) {
    forall m :: 0 <= m <= |picked| ==> WellSpread(candidates, picked[..m])
  }

  /** The seeds stand in the order of their best candidates. */
  ghost predicate BestFirst(candidates: seq<Pick>, order: seq<Option<int>>) {
    forall i, j :: 0 <= i < j < |order| ==> Ahead(candidates, order[i], order[j])
  }

  lemma {:induction false} OfAbsent(cs: seq<Pick>, seed: Option<int>)
    ensures Of(cs, seed) == [] <==> forall q :: 0 <= q < |cs| ==> cs[q].seed != seed
  {
    if |cs| > 0 {
      OfAbsent(cs[..|cs| - 1], seed);
    }
  }

  lemma NotBothAhead(candidates: seq<Pick>, a: Option<int>, b: Option<int>)
    requires Ahead(candidates, a, b)
    ensures !Ahead(candidates, b, a) && a != b
  {
  }

  lemma PickOne(candidates: seq<Pick>, queues: Queues, picked: seq<Pick>, order: seq<Option<int>>, t: nat, i: nat)
    requires Spreading(candidates, queues, picked, order, t, i) && i < |order| && |queues[order[i]]| > 0
    requires |candidates| > 0 && order[0] == candidates[0].seed
    requires |picked| == 0 ==> i == 0
    ensures var q := queues[order[i]];
            Spreading(candidates, queues[order[i] := q[1..]], picked + [q[0]], order, t, i + 1)
  {
    var seed, q := order[i], queues[order[i]];
    assert seed in queues;
    OfMembers(candidates, seed);
    assert q[0] in Of(picked, seed) + q;
    forall s
      ensures Of(picked + [q[0]], s) == Of(picked, s) + (if s == seed then [q[0]] else [])
    {
      OfSnoc(picked, q[0], s);
      assert Of(picked, s) + [] == Of(picked, s);
    }
    PickShared(candidates, queues, picked, seed);
    forall j | 0 <= j < |order|
      ensures HadTurns(queues[seed := q[1..]], picked + [q[0]], order[j], t + (if j < i + 1 then 1 else 0))
    {
      assert HadTurns(queues, picked, order[j], t + (if j < i then 1 else 0));
    }
    if |picked| == 0 {
      OfStarts(candidates);
    }
  }

  lemma PickShared(candidates: seq<Pick>, queues: Queues, picked: seq<Pick>, seed: Option<int>)
    requires Shared(candidates, queues, picked) && seed in queues && |queues[seed]| > 0
    requires queues[seed][0].seed == seed
    ensures Shared(candidates, queues[seed := queues[seed][1..]], picked + [queues[seed][0]])
  {
    hide Of;
    var q := queues[seed];
    forall s
      ensures Of(picked + [q[0]], s) == Of(picked, s) + (if s == seed then [q[0]] else [])
    {
      OfSnoc(picked, q[0], s);
    }
    assert Of(picked, seed) + [q[0]] + q[1..] == Of(picked, seed) + q;
  }

  lemma PassOver(candidates: seq<Pick>, queues: Queues, picked: seq<Pick>, order: seq<Option<int>>, t: nat, i: nat)
    requires Spreading(candidates, queues, picked, order, t, i) && i < |order| && queues[order[i]] == []
    ensures Spreading(candidates, queues, picked, order, t, i + 1)
  {
    forall j | 0 <= j < |order|
      ensures HadTurns(queues, picked, order[j], t + (if j < i + 1 then 1 else 0))
    {
      assert HadTurns(queues, picked, order[j], t + (if j < i then 1 else 0));
    }
  }

  lemma SpreadIsEven(candidates: seq<Pick>, queues: Queues, picked: seq<Pick>, order: seq<Option<int>>, t: nat, i: nat)
    requires Spreading(candidates, queues, picked, order, t, i) && i <= |order| && BestFirst(candidates, order)
    ensures WellSpread(candidates, picked)
  {
    hide Ahead;
    forall a, b | |Of(picked, a)| < |Of(picked, b)|
                  && (Ahead(candidates, a, b) || |Of(picked, a)| + 1 < |Of(picked, b)|)
      ensures Of(picked, a) == Of(candidates, a)
    {
      ShareOf(candidates, queues, picked, order, t, i, a, b);
    }
  }

  lemma TurnsOf(queues: Queues, picked: seq<Pick>, order: seq<Option<int>>, t: nat, i: nat, a: Option<int>)
    returns (j: nat)
    requires Listing(order, queues) && TurnsHad(queues, picked, order, t, i) && a in queues
    ensures j < |order| && order[j] == a && HadTurns(queues, picked, a, t + (if j < i then 1 else 0))
  {
    hide HadTurns;
    assert a in order;
    j :| 0 <= j < |order| && order[j] == a;
    assert HadTurns(queues, picked, order[j], t + (if j < i then 1 else 0));
  }

  lemma ShareOf(candidates: seq<Pick>, queues: Queues, picked: seq<Pick>, order: seq<Option<int>>, t: nat, i: nat,
                a: Option<int>, b: Option<int>)
    requires Spreading(candidates, queues, picked, order, t, i) && i <= |order| && BestFirst(candidates, order)
    requires |Of(picked, a)| < |Of(picked, b)|
    requires Ahead(candidates, a, b) || |Of(picked, a)| + 1 < |Of(picked, b)|
    ensures Of(picked, a) == Of(candidates, a)
  {
    hide Ahead;
    hide Of;
    if a in queues {
      var j := TurnsOf(queues, picked, order, t, i, a);
      var k := TurnsOf(queues, picked, order, t, i, b);
      hide TurnsHad;
      hide Listing;
      assert Of(picked, a) + [] == Of(picked, a);
      if Ahead(candidates, a, b) {
        NotBothAhead(candidates, a, b);
        assert j < k;
      }
    }
  }

  lemma NothingPicked(candidates: seq<Pick>)
    ensures SpreadThroughout(candidates, [])
  {
    var none: seq<Pick> := [];
    forall seed
      ensures Of(none, seed) == []
    {
    }
    assert none[..0] == none;
  }

  lemma OneMorePicked(candidates: seq<Pick>, picked: seq<Pick>, c: Pick)
    requires SpreadThroughout(candidates, picked) && WellSpread(candidates, picked + [c])
    ensures SpreadThroughout(candidates, picked + [c])
  {
    hide WellSpread;
    var more := picked + [c];
    forall m | 0 <= m <= |more|
      ensures WellSpread(candidates, more[..m])
    {
      if m <= |picked| {
        assert more[..m] == picked[..m];
      } else {
        assert more[..m] == more;
      }
    }
  }

  // ----- queues by seed -----

  /** The queues hold the first `n` candidates by seed, and the seeds are listed in order of their best candidate. */
  ghost predicate Queued(candidates: seq<Pick>, queues: Queues, order: seq<Option<int>>, n: nat) {
    && n <= |candidates| && Listing(order, queues) && (n == 0 ==> queues == map[] && order == [])
    && (forall seed :: seed in queues ==> queues[seed] == Of(candidates[..n], seed) && |queues[seed]| > 0)
    && (forall seed :: seed !in queues ==> Of(candidates[..n], seed) == [])
    && (n > 0 ==> |order| > 0 && order[0] == candidates[0].seed) && BestFirst(candidates, order)
  }

  function Queue(queues: Queues, seed: Option<int>): seq<Pick> {
    if seed in queues then queues[seed] else []
  }

  function WithSeed(order: seq<Option<int>>, queues: Queues, seed: Option<int>): seq<Option<int>> {
    if seed in queues then order else order + [seed]
  }

  lemma ListingGrows(order: seq<Option<int>>, queues: Queues, seed: Option<int>, q: seq<Pick>)
    requires Listing(order, queues)
    ensures Listing(WithSeed(order, queues, seed), queues[seed := q])
  {
    if seed !in queues {
      forall s
        ensures s in order + [seed] <==> s in order || s == seed
      {
      }
      forall i | 0 <= i < |order|
        ensures order[i] != seed
      {
        assert order[i] in order;
      }
    }
  }

  lemma QueueNext(candidates: seq<Pick>, queues: Queues, order: seq<Option<int>>, n: nat)
    requires Queued(candidates, queues, order, n) && n < |candidates|
    ensures var c := candidates[n];
            Queued(candidates, queues[c.seed := Queue(queues, c.seed) + [c]], WithSeed(order, queues, c.seed), n + 1)
  {
    var c := candidates[n];
    var next, listed := queues[c.seed := Queue(queues, c.seed) + [c]], WithSeed(order, queues, c.seed);
    assert candidates[..n + 1] == candidates[..n] + [c];
    forall seed
      ensures seed in next ==> next[seed] == Of(candidates[..n + 1], seed)
      ensures seed !in next ==> Of(candidates[..n + 1], seed) == []
    {
      OfSnoc(candidates[..n], c, seed);
      assert Of(candidates[..n], seed) + [] == Of(candidates[..n], seed);
    }
    ListingGrows(order, queues, c.seed, Queue(queues, c.seed) + [c]);
    if c.seed !in queues {
      NewSeedIsLast(candidates, queues, order, n);
    }
    if n == 0 {
      NothingListed(candidates, queues, order, c.seed);
    }
  }

  lemma NewSeedIsLast(candidates: seq<Pick>, queues: Queues, order: seq<Option<int>>, n: nat)
    requires Queued(candidates, queues, order, n) && n < |candidates| && candidates[n].seed !in queues
    requires forall seed :: seed in order ==> Of(candidates[..n], seed) != []
    ensures BestFirst(candidates, order + [candidates[n].seed])
  {
    var seed := candidates[n].seed;
    OfAbsent(candidates[..n], seed);
    forall i | 0 <= i < |order|
      ensures Ahead(candidates, order[i], seed)
    {
      assert order[i] in order;
      OfAbsent(candidates[..n], order[i]);
      var p :| 0 <= p < n && candidates[..n][p].seed == order[i];
      assert forall q :: 0 <= q <= p ==> candidates[q] == candidates[..n][q];
    }
  }

  lemma NothingListed(candidates: seq<Pick>, queues: Queues, order: seq<Option<int>>, seed: Option<int>)
    requires Queued(candidates, queues, order, 0) && |candidates| > 0
    ensures WithSeed(order, queues, seed) == order + [seed] && |order| == 0
  {
  }

  method QueueBySeed(candidates: seq<Pick>) returns (queues: Queues, order: seq<Option<int>>)
    ensures Queued(candidates, queues, order, |candidates|)
  {
    hide Queued;
    queues, order := map[], [];
    NoneQueued(candidates);
    for n := 0 to |candidates|
      invariant Queued(candidates, queues, order, n)
    {
      var c := candidates[n];
      QueueNext(candidates, queues, order, n);
      ghost var next := queues[c.seed := Queue(queues, c.seed) + [c]];
      if c.seed !in queues {
        queues := queues[c.seed := []];
        order := order + [c.seed];
      }
      assert next == queues[c.seed := queues[c.seed] + [c]];
      queues := queues[c.seed := queues[c.seed] + [c]];
    }
  }

  lemma NoneQueued(candidates: seq<Pick>)
    ensures Queued(candidates, map[], [], 0)
  {
    assert candidates[..0] == [];
  }

  lemma SpreadBegins(candidates: seq<Pick>, queues: Queues, order: seq<Option<int>>)
    requires Queued(candidates, queues, order, |candidates|)
    ensures Spreading(candidates, queues, [], order, 0, 0) && BestFirst(candidates, order)
    ensures |candidates| > 0 ==> |order| > 0 && order[0] == candidates[0].seed
  {
    assert candidates[..|candidates|] == candidates;
    forall seed
      ensures Of([], seed) == []
    {
    }
    forall j | 0 <= j < |order|
      ensures HadTurns(queues, [], order[j], 0)
    {
      assert order[j] in order;
    }
  }

  // ----- passes -----

  /** One pass: one pick from each seed with any left, until enough are picked. */
  method SpreadPass(candidates: seq<Pick>, before: Queues, had: seq<Pick>, order: seq<Option<int>>, keep: nat,
                    ghost t: nat)
    returns (queues: Queues, picked: seq<Pick>, progressed: bool, ghost i: nat)
    requires Spreading(candidates, before, had, order, t, 0) && |had| < keep
    requires |candidates| > 0 && |order| > 0 && order[0] == candidates[0].seed && BestFirst(candidates, order)
    requires SpreadThroughout(candidates, had)
    ensures Spreading(candidates, queues, picked, order, t, i) && i <= |order| && SpreadThroughout(candidates, picked)
    ensures |picked| <= keep && |picked| >= |had| && (progressed <==> |picked| > |had|)
    ensures |picked| == keep || i == |order|
    ensures !progressed ==> forall j :: 0 <= j < |order| ==> order[j] in queues && queues[order[j]] == []
  {
    hide Spreading;
    hide SpreadThroughout;
    hide WellSpread;
    hide BestFirst;
    queues, picked, progressed, i := before, had, false, 0;
    for position := 0 to |order|
      invariant i == position && |had| <= |picked| < keep && (progressed <==> |picked| > |had|)
      invariant Spreading(candidates, queues, picked, order, t, i) && SpreadThroughout(candidates, picked)
      invariant !progressed ==> queues == before && picked == had
      invariant !progressed ==> forall j :: 0 <= j < position ==> order[j] in queues && queues[order[j]] == []
    {
      SeedQueued(candidates, queues, picked, order, t, i, position);
      var queue := queues[order[position]];
      if |queue| > 0 {
        FirstComesFirst(candidates, queues, picked, order, t, position);
        PickOne(candidates, queues, picked, order, t, position);
        queues := queues[order[position] := queue[1..]];
        SpreadIsEven(candidates, queues, picked + [queue[0]], order, t, position + 1);
        OneMorePicked(candidates, picked, queue[0]);
        picked, progressed, i := picked + [queue[0]], true, position + 1;
        if |picked| >= keep {
          break;
        }
      } else {
        PassOver(candidates, queues, picked, order, t, position);
        i := position + 1;
      }
    }
  }

  lemma SeedQueued(candidates: seq<Pick>, queues: Queues, picked: seq<Pick>, order: seq<Option<int>>, t: nat, i: nat,
                   j: nat)
    requires Spreading(candidates, queues, picked, order, t, i) && j < |order|
    ensures order[j] in queues
  {
    assert order[j] in order;
  }

  /** The best candidate's seed has the first turn of all. */
  lemma FirstComesFirst(candidates: seq<Pick>, queues: Queues, picked: seq<Pick>, order: seq<Option<int>>, t: nat,
                        i: nat)
    requires Spreading(candidates, queues, picked, order, t, i) && |candidates| > 0 && i < |order|
    requires order[0] == candidates[0].seed
    ensures |picked| == 0 ==> i == 0
  {
    OfStarts(candidates);
    assert order[0] in order;
    assert HadTurns(queues, picked, order[0], t + (if 0 < i then 1 else 0));
  }

  lemma NextPass(candidates: seq<Pick>, queues: Queues, picked: seq<Pick>, order: seq<Option<int>>, t: nat)
    requires Spreading(candidates, queues, picked, order, t, |order|)
    ensures Spreading(candidates, queues, picked, order, t + 1, 0)
  {
    forall j | 0 <= j < |order|
      ensures HadTurns(queues, picked, order[j], t + 1)
    {
      assert HadTurns(queues, picked, order[j], t + (if j < |order| then 1 else 0));
    }
  }

  lemma AllPicked(candidates: seq<Pick>, queues: Queues, picked: seq<Pick>, order: seq<Option<int>>, t: nat, i: nat)
    requires Spreading(candidates, queues, picked, order, t, i)
    requires forall j :: 0 <= j < |order| ==> order[j] in queues && queues[order[j]] == []
    ensures |picked| == |candidates|
  {
    forall seed
      ensures Of(picked, seed) == Of(candidates, seed)
    {
      if seed in queues {
        assert seed in order;
        assert Of(picked, seed) + [] == Of(picked, seed);
      }
    }
    SameOfSameLength(picked, candidates);
  }

  /** All of the candidates if they fit; otherwise as many as do, the best one first, and at every point a best-first
      prefix of each seed's, no seed more than one ahead of another that still had candidates, nor ahead at all of one
      with a better best candidate. */
  method DiversifyBySeed(candidates: seq<Pick>, keep: nat) returns (picked: seq<Pick>)
    ensures |candidates| <= keep ==> picked == candidates
    ensures |candidates| > keep ==> |picked| == keep && (keep > 0 ==> picked[0] == candidates[0])
    ensures |candidates| > keep ==> SpreadThroughout(candidates, picked)
    ensures forall seed :: Of(picked, seed) <= Of(candidates, seed)
  {
    if |candidates| <= keep {
      return candidates;
    }
    hide Spreading;
    hide Queued;
    hide SpreadThroughout;
    hide WellSpread;
    hide BestFirst;
    var queues, order := QueueBySeed(candidates);
    SpreadBegins(candidates, queues, order);
    NothingPicked(candidates);
    picked := [];
    ghost var t: nat, i: nat := 0, 0;
    while |picked| < keep
      invariant Spreading(candidates, queues, picked, order, t, i) && |picked| <= keep && i <= |order|
      invariant SpreadThroughout(candidates, picked)
      invariant |picked| < keep ==> i == 0
      decreases keep - |picked|
    {
      var progressed;
      queues, picked, progressed, i := SpreadPass(candidates, queues, picked, order, keep, t);
      if !progressed {
        AllPicked(candidates, queues, picked, order, t, i);
        break;
      }
      if |picked| < keep {
        NextPass(candidates, queues, picked, order, t);
        t, i := t + 1, 0;
      }
    }
    SpreadIsEven(candidates, queues, picked, order, t, i);
    WellSpreadPrefixes(candidates, picked);
    SpreadStarts(candidates, queues, picked, order, t, i);
  }

  lemma WellSpreadPrefixes(candidates: seq<Pick>, picked: seq<Pick>)
    requires WellSpread(candidates, picked)
    ensures forall seed :: Of(picked, seed) <= Of(candidates, seed)
  {
  }

  lemma SpreadStarts(candidates: seq<Pick>, queues: Queues, picked: seq<Pick>, order: seq<Option<int>>, t: nat, i: nat)
    requires Spreading(candidates, queues, picked, order, t, i)
    ensures |picked| > 0 ==> |candidates| > 0 && picked[0] == candidates[0]
  {
  }
}
