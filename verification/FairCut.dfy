/** Cutting a pool of candidates to size so that every source that found some keeps its share. */
module FairCut {
  import opened Multiples
  import opened Options
  import opened RequestAlloc

  const UNATTRIBUTED := ""

  /** A candidate title and the sources that found it. */
  datatype Candidate = Candidate(title: Title, sources: set<string>)

  function IdOf(c: Candidate): Key {
    KeyOf(c.title)
  }

  /** A candidate nobody claims to have found queues under a source of its own. */
  function SourcesOf(c: Candidate): set<string> {
    if c.sources == {} then {UNATTRIBUTED} else c.sources
  }

  /** How good a candidate is: less is better. Any total preorder of candidates is one of these. */
  type Ranking = Candidate -> int

  ghost predicate BestFirst(rank: Ranking, cs: seq<Candidate>) {
    forall i, j :: 0 <= i < j < |cs| ==> rank(cs[i]) <= rank(cs[j])
  }

  // ----- a stable sort -----

  function Place(rank: Ranking, c: Candidate, cs: seq<Candidate>): seq<Candidate> {
    if |cs| == 0 || rank(c) <= rank(cs[0]) then [c] + cs else [cs[0]] + Place(rank, c, cs[1..])
  }

  function Sorted(rank: Ranking, cs: seq<Candidate>): seq<Candidate> {
    if |cs| == 0 then [] else Place(rank, cs[0], Sorted(rank, cs[1..]))
  }

  lemma {:induction false} PlaceBounded(rank: Ranking, c: Candidate, cs: seq<Candidate>, low: int)
    requires low <= rank(c) && forall i :: 0 <= i < |cs| ==> low <= rank(cs[i])
    ensures forall i :: 0 <= i < |Place(rank, c, cs)| ==> low <= rank(Place(rank, c, cs)[i])
  {
    if |cs| > 0 && rank(c) > rank(cs[0]) {
      PlaceBounded(rank, c, cs[1..], low);
    }
  }

  lemma {:induction false} PlaceSorted(rank: Ranking, c: Candidate, cs: seq<Candidate>)
    requires BestFirst(rank, cs)
    ensures BestFirst(rank, Place(rank, c, cs))
  {
    if |cs| > 0 && rank(c) > rank(cs[0]) {
      PlaceSorted(rank, c, cs[1..]);
      PlaceBounded(rank, c, cs[1..], rank(cs[0]));
    }
  }

  lemma {:induction false} PlaceMembers(rank: Ranking, c: Candidate, cs: seq<Candidate>)
    ensures multiset(Place(rank, c, cs)) == multiset(cs) + multiset{c}
  {
    if |cs| > 0 {
      PlaceMembers(rank, c, cs[1..]);
      assert cs == [cs[0]] + cs[1..];
    }
  }

  lemma {:induction false} SortedIsSorted(rank: Ranking, cs: seq<Candidate>)
    ensures BestFirst(rank, Sorted(rank, cs)) && multiset(Sorted(rank, cs)) == multiset(cs)
  {
    if |cs| > 0 {
      SortedIsSorted(rank, cs[1..]);
      PlaceSorted(rank, cs[0], Sorted(rank, cs[1..]));
      PlaceMembers(rank, cs[0], Sorted(rank, cs[1..]));
      assert cs == [cs[0]] + cs[1..];
    }
  }

  lemma SortedMembers(rank: Ranking, cs: seq<Candidate>)
    ensures forall c :: c in Sorted(rank, cs) <==> c in cs
    ensures |Sorted(rank, cs)| == |cs|
  {
    SortedIsSorted(rank, cs);
    forall c
      ensures c in Sorted(rank, cs) <==> c in cs
    {
      assert c in Sorted(rank, cs) <==> c in multiset(Sorted(rank, cs));
      assert c in cs <==> c in multiset(cs);
    }
    assert |multiset(Sorted(rank, cs))| == |multiset(cs)|;
  }

  /** The candidates of one rank, in order. */
  function Ties(rank: Ranking, cs: seq<Candidate>, r: int): seq<Candidate> {
    if |cs| == 0 then [] else (if rank(cs[0]) == r then [cs[0]] else []) + Ties(rank, cs[1..], r)
  }

  lemma {:induction false} PlaceKeepsTies(rank: Ranking, c: Candidate, cs: seq<Candidate>, r: int)
    requires BestFirst(rank, cs)
    ensures Ties(rank, Place(rank, c, cs), r) == (if rank(c) == r then [c] else []) + Ties(rank, cs, r)
  {
    if |cs| > 0 && rank(c) > rank(cs[0]) {
      PlaceKeepsTies(rank, c, cs[1..], r);
      assert ([cs[0]] + Place(rank, c, cs[1..]))[1..] == Place(rank, c, cs[1..]);
    } else {
      assert ([c] + cs)[1..] == cs;
    }
  }

  /** Candidates of equal rank stay in the order they came in. */
  lemma {:induction false} SortedKeepsTies(rank: Ranking, cs: seq<Candidate>, r: int)
    ensures Ties(rank, Sorted(rank, cs), r) == Ties(rank, cs, r)
  {
    if |cs| > 0 {
      SortedKeepsTies(rank, cs[1..], r);
      SortedIsSorted(rank, cs[1..]);
      PlaceKeepsTies(rank, cs[0], Sorted(rank, cs[1..]), r);
    }
  }

  // ----- one source's turn -----

  /** Pops the queue up to its first title not yet taken. */
  method TakeTurn(queue: seq<Candidate>, taken: set<Key>) returns (rest: seq<Candidate>, found: Option<Candidate>)
    ensures found.None? ==> rest == [] && forall c :: c in queue ==> IdOf(c) in taken
    ensures found.Some? ==> exists k :: 0 <= k < |queue| && queue[k] == found.value && rest == queue[k + 1..]
                              && IdOf(queue[k]) !in taken && forall j :: 0 <= j < k ==> IdOf(queue[j]) in taken
  {
    rest := queue;
    ghost var k := 0;
    while |rest| > 0
      invariant 0 <= k <= |queue| && rest == queue[k..]
      invariant forall j :: 0 <= j < k ==> IdOf(queue[j]) in taken
    {
      var c := rest[0];
      rest := rest[1..];
      if IdOf(c) !in taken {
        return rest, Some(c);
      }
      k := k + 1;
    }
    found := None;
  }

  // ----- the state of the cut -----

  type Queues = map<string, seq<Candidate>>

  ghost predicate InQueues(ranked: seq<Candidate>, queues: Queues, taken: set<Key>) {
    forall c, s :: c in ranked && s in SourcesOf(c) ==> s in queues && (c in queues[s] || IdOf(c) in taken)
  }

  /** Each queue holds candidates of its source, best first. */
  ghost predicate QueuesSound(rank: Ranking, ranked: seq<Candidate>, queues: Queues) {
    forall s :: s in queues ==> BestFirst(rank, queues[s])
                                && forall c :: c in queues[s] ==> c in ranked && s in SourcesOf(c)
  }

  ghost predicate PickedSound(ranked: seq<Candidate>, picked: seq<Candidate>, taken: set<Key>) {
    && (forall c :: c in picked ==> c in ranked)
    && (forall i, j :: 0 <= i < j < |picked| ==> IdOf(picked[i]) != IdOf(picked[j]))
    && taken == Ids(picked)
  }

  function Ids(cs: seq<Candidate>): set<Key> {
    set c | c in cs :: IdOf(c)
  }

  /** What each source picked on its own turns: its own candidates, no worse than any it still has queued. */
  ghost predicate MineSound(rank: Ranking, queues: Queues, picked: seq<Candidate>, mine: map<string, set<Candidate>>) {
    && mine.Keys == queues.Keys
    && (forall s, d :: s in mine && d in mine[s] ==> d in picked && s in SourcesOf(d))
    && (forall s, d, c :: s in mine && d in mine[s] && c in queues[s] ==> rank(d) <= rank(c))
  }

  ghost predicate Cutting(rank: Ranking, ranked: seq<Candidate>, queues: Queues, picked: seq<Candidate>,
                          taken: set<Key>, mine: map<string, set<Candidate>>)
  {
    && InQueues(ranked, queues, taken) && QueuesSound(rank, ranked, queues)
    && PickedSound(ranked, picked, taken) && MineSound(rank, queues, picked, mine)
  }

  lemma DropTaken(rank: Ranking, ranked: seq<Candidate>, queues: Queues, picked: seq<Candidate>,
                  taken: set<Key>, mine: map<string, set<Candidate>>, s: string)
    requires Cutting(rank, ranked, queues, picked, taken, mine) && s in queues
    requires forall c :: c in queues[s] ==> IdOf(c) in taken
    ensures Cutting(rank, ranked, queues[s := []], picked, taken, mine)
  {
  }

  lemma IdsSnoc(cs: seq<Candidate>, c: Candidate)
    ensures Ids(cs + [c]) == Ids(cs) + {IdOf(c)}
  {
    assert c in cs + [c];
    forall d | d in cs
      ensures d in cs + [c]
    {
    }
  }

  lemma PickSound(ranked: seq<Candidate>, picked: seq<Candidate>, taken: set<Key>, c: Candidate)
    requires PickedSound(ranked, picked, taken) && c in ranked && IdOf(c) !in taken
    ensures PickedSound(ranked, picked + [c], taken + {IdOf(c)})
  {
    IdsSnoc(picked, c);
    forall i | 0 <= i < |picked|
      ensures IdOf(picked[i]) in taken
    {
      assert picked[i] in picked;
    }
  }

  lemma PickQueues(rank: Ranking, ranked: seq<Candidate>, queues: Queues, taken: set<Key>, s: string, k: nat)
    requires InQueues(ranked, queues, taken) && QueuesSound(rank, ranked, queues)
    requires s in queues && k < |queues[s]| && forall j :: 0 <= j < k ==> IdOf(queues[s][j]) in taken
    ensures InQueues(ranked, queues[s := queues[s][k + 1..]], taken + {IdOf(queues[s][k])})
    ensures QueuesSound(rank, ranked, queues[s := queues[s][k + 1..]])
  {
    var q := queues[s];
    forall c | c in q
      ensures c in q[k + 1..] || IdOf(c) in taken + {IdOf(q[k])}
    {
      var j :| 0 <= j < |q| && q[j] == c;
      if j > k {
        assert q[k + 1..][j - k - 1] == c;
      }
    }
  }

  lemma PickMine(rank: Ranking, ranked: seq<Candidate>, queues: Queues, picked: seq<Candidate>,
                 mine: map<string, set<Candidate>>, s: string, k: nat)
    requires QueuesSound(rank, ranked, queues) && MineSound(rank, queues, picked, mine)
    requires s in queues && k < |queues[s]|
    ensures MineSound(rank, queues[s := queues[s][k + 1..]], picked + [queues[s][k]],
                      mine[s := mine[s] + {queues[s][k]}])
  {
    var q := queues[s];
    forall c | c in q[k + 1..]
      ensures c in q && rank(q[k]) <= rank(c)
    {
      var j :| 0 <= j < |q[k + 1..]| && q[k + 1..][j] == c;
      assert q[j + k + 1] == c;
    }
    assert q[k] in q;
    forall d | d in picked
      ensures d in picked + [q[k]]
    {
    }
    assert q[k] in picked + [q[k]];
  }

  lemma PickFound(rank: Ranking, ranked: seq<Candidate>, queues: Queues, picked: seq<Candidate>,
                  taken: set<Key>, mine: map<string, set<Candidate>>, s: string, k: nat)
    requires Cutting(rank, ranked, queues, picked, taken, mine) && s in queues && k < |queues[s]|
    requires IdOf(queues[s][k]) !in taken && forall j :: 0 <= j < k ==> IdOf(queues[s][j]) in taken
    ensures var c := queues[s][k];
            Cutting(rank, ranked, queues[s := queues[s][k + 1..]], picked + [c], taken + {IdOf(c)},
                    mine[s := mine[s] + {c}])
  {
    assert queues[s][k] in queues[s];
    PickSound(ranked, picked, taken, queues[s][k]);
    PickQueues(rank, ranked, queues, taken, s, k);
    PickMine(rank, ranked, queues, picked, mine, s, k);
  }

  // ----- turns -----

  /** Source `order[j]` has had `t` turns, and one more if `j < i`, each of which picked something; or it ran dry. */
  ghost predicate TurnsHad(queues: Queues, mine: map<string, set<Candidate>>, order: seq<string>, t: nat, i: nat) {
    forall j :: 0 <= j < |order| ==> HadTurns(queues, mine, order[j], t + (if j < i then 1 else 0))
  }

  ghost predicate HadTurns(queues: Queues, mine: map<string, set<Candidate>>, s: string, turns: nat) {
    s in queues && s in mine && (|mine[s]| >= turns || queues[s] == [])
  }

  ghost predicate Listing(order: seq<string>, sources: set<string>) {
    && (forall s :: s in order <==> s in sources) && |order| == |sources|
    && forall i, j :: 0 <= i < j < |order| ==> order[i] != order[j]
  }

  /** The turn of source `s`. */
  method OneTurn(rank: Ranking, ranked: seq<Candidate>, before: Queues, had: seq<Candidate>, gone: set<Key>,
                 ghost was: map<string, set<Candidate>>, s: string)
    returns (queues: Queues, picked: seq<Candidate>, taken: set<Key>, ghost mine: map<string, set<Candidate>>)
    requires Cutting(rank, ranked, before, had, gone, was) && s in before
    ensures Cutting(rank, ranked, queues, picked, taken, mine) && mine.Keys == queues.Keys == before.Keys
    ensures forall r :: r in before && r != s ==> queues[r] == before[r] && mine[r] == was[r]
    ensures |mine[s]| == |was[s]| + 1 || (queues[s] == [] && picked == had && mine == was)
    ensures had <= picked && |picked| <= |had| + 1
    ensures |picked| == |had| || before[s] == [] ==> queues[s] == []
  {
    hide InQueues;
    hide QueuesSound;
    hide PickedSound;
    var rest, found := TakeTurn(before[s], gone);
    queues := before[s := rest];
    if found.None? {
      DropTaken(rank, ranked, before, had, gone, was, s);
      picked, taken, mine := had, gone, was;
    } else {
      ghost var k :| 0 <= k < |before[s]| && before[s][k] == found.value && rest == before[s][k + 1..]
                     && IdOf(before[s][k]) !in gone && forall j :: 0 <= j < k ==> IdOf(before[s][j]) in gone;
      PickFound(rank, ranked, before, had, gone, was, s, k);
      NotYetMine(rank, ranked, before, had, gone, was, s, found.value);
      picked, taken := had + [found.value], gone + {IdOf(found.value)};
      mine := was[s := was[s] + {found.value}];
    }
  }

  lemma NotYetMine(rank: Ranking, ranked: seq<Candidate>, queues: Queues, picked: seq<Candidate>,
                   taken: set<Key>, mine: map<string, set<Candidate>>, s: string, c: Candidate)
    requires Cutting(rank, ranked, queues, picked, taken, mine) && s in queues && IdOf(c) !in taken
    ensures c !in mine[s]
  {
    forall d | d in picked
      ensures IdOf(d) in Ids(picked)
    {
    }
  }

  /** How far a pass over the sources has come: after `t` full passes and `i` turns of the next. */
  ghost predicate Passing(rank: Ranking, ranked: seq<Candidate>, queues: Queues, picked: seq<Candidate>,
                          taken: set<Key>, mine: map<string, set<Candidate>>, order: seq<string>, t: nat, i: nat)
  {
    && Cutting(rank, ranked, queues, picked, taken, mine) && Listing(order, queues.Keys)
    && i <= |order| && TurnsHad(queues, mine, order, t, i) && |picked| <= t * |order| + i
  }

  /** The queues of the first `n` sources have run dry. */
  ghost predicate RunDry(queues: Queues, order: seq<string>, n: nat) {
    forall j :: 0 <= j < n && j < |order| ==> order[j] in queues && queues[order[j]] == []
  }

  lemma NoneDryYet(queues: Queues, order: seq<string>)
    ensures RunDry(queues, order, 0)
  {
  }

  lemma RunDryNext(before: Queues, queues: Queues, order: seq<string>, n: nat)
    requires RunDry(before, order, n) && n < |order| && queues.Keys == before.Keys
    requires forall r :: r in before && r != order[n] ==> queues[r] == before[r]
    requires order[n] in queues && queues[order[n]] == []
    ensures RunDry(queues, order, n + 1)
  {
  }

  lemma AllRunDry(queues: Queues, order: seq<string>)
    requires RunDry(queues, order, |order|) && Listing(order, queues.Keys)
    ensures forall s :: s in queues ==> queues[s] == []
  {
    forall s | s in queues
      ensures queues[s] == []
    {
      assert s in order;
    }
  }

  /** One pass: a turn for each source, until enough are picked. */
  method OnePass(rank: Ranking, ranked: seq<Candidate>, before: Queues, had: seq<Candidate>, gone: set<Key>,
                 ghost was: map<string, set<Candidate>>, order: seq<string>, keep: nat, ghost t: nat)
    returns (queues: Queues, picked: seq<Candidate>, taken: set<Key>, ghost mine: map<string, set<Candidate>>,
             ghost i: nat)
    requires Passing(rank, ranked, before, had, gone, was, order, t, 0) && |had| < keep
    ensures Passing(rank, ranked, queues, picked, taken, mine, order, t, i)
    ensures |picked| <= keep && (|picked| == keep || i == |order|) && |had| <= |picked|
    ensures |picked| == |had| ==> forall s :: s in queues ==> queues[s] == []
  {
    hide TurnsHad;
    hide RunDry;
    hide Cutting;
    queues, picked, taken, mine, i := before, had, gone, was, 0;
    NoneDryYet(queues, order);
    for position := 0 to |order|
      invariant i == position && |picked| < keep && |had| <= |picked| && queues.Keys == before.Keys
      invariant Passing(rank, ranked, queues, picked, taken, mine, order, t, i)
      invariant |picked| == |had| ==> RunDry(queues, order, position)
    {
      var s := order[position];
      assert s in order;
      ghost var q, m := queues, mine;
      queues, picked, taken, mine := OneTurn(rank, ranked, queues, picked, taken, mine, s);
      TurnTaken(q, m, queues, mine, order, t, position);
      if |picked| == |had| {
        RunDryNext(q, queues, order, position);
      }
      i := position + 1;
      if |picked| >= keep {
        break;
      }
    }
    if |picked| == |had| {
      AllRunDry(queues, order);
    }
  }

  lemma TurnTaken(before: Queues, was: map<string, set<Candidate>>, queues: Queues,
                  mine: map<string, set<Candidate>>, order: seq<string>, t: nat, i: nat)
    requires TurnsHad(before, was, order, t, i) && i < |order| && Listing(order, before.Keys)
    requires queues.Keys == before.Keys
    requires forall r :: r in before && r != order[i] ==> r in mine && queues[r] == before[r] && mine[r] == was[r]
    requires order[i] in queues && order[i] in mine
    requires |mine[order[i]]| == |was[order[i]]| + 1 || queues[order[i]] == []
    requires before[order[i]] == [] ==> queues[order[i]] == []
    ensures TurnsHad(queues, mine, order, t, i + 1)
  {
    forall j | 0 <= j < |order|
      ensures HadTurns(queues, mine, order[j], t + (if j < i + 1 then 1 else 0))
    {
      assert HadTurns(before, was, order[j], t + (if j < i then 1 else 0));
      assert order[j] in order;
    }
  }

  // ----- the whole cut -----

  function SourcesIn(cs: seq<Candidate>): set<string> {
    set c, s | c in cs && s in SourcesOf(c) :: s
  }

  /** The kept candidates of a source that are no worse than this one. */
  function NoWorse(rank: Ranking, kept: seq<Candidate>, s: string, c: Candidate): set<Candidate> {
    set d | d in kept && s in SourcesOf(d) && rank(d) <= rank(c)
  }

  /** A title left out lost only to its sources' fair share: each kept that many of its own, none of them worse. */
  ghost predicate FairTo(rank: Ranking, kept: seq<Candidate>, c: Candidate, share: nat) {
    IdOf(c) !in Ids(kept) ==> forall s :: s in SourcesOf(c) ==> |NoWorse(rank, kept, s, c)| >= share
  }

  /** The cut is best first, without repeats, as long as it may be, and fair. */
  ghost predicate FairlyCut(rank: Ranking, candidates: seq<Candidate>, keep: nat, share: nat, kept: seq<Candidate>) {
    && BestFirst(rank, kept) && (forall c :: c in kept ==> c in candidates)
    && (forall i, j :: 0 <= i < j < |kept| ==> IdOf(kept[i]) != IdOf(kept[j]))
    && |kept| == (if keep < |Ids(candidates)| then keep else |Ids(candidates)|)
    && forall c :: c in candidates ==> FairTo(rank, kept, c, share)
  }

  /** `m` sources can have this share each of `keep`. */
  predicate Fits(share: nat, m: nat, keep: nat) {
    share * m <= keep
  }

  lemma AtLeastShare(keep: nat, share: nat, t: nat, m: nat, i: nat, j: nat)
    requires Fits(share, m, keep) && j < m && i <= m && keep <= t * m + i
    ensures share <= t + (if j < i then 1 else 0)
  {
    if share > t {
      OneMoreTimes(m, t, share);
      if share > t + 1 {
        OneMoreTimes(m, t + 1, share);
      }
    }
  }

  /** A source with candidates still queued has had all its turns. */
  lemma WaitingHadShare(rank: Ranking, ranked: seq<Candidate>, queues: Queues, picked: seq<Candidate>,
                        taken: set<Key>, mine: map<string, set<Candidate>>, order: seq<string>, t: nat, i: nat,
                        c: Candidate, s: string, keep: nat, share: nat)
    requires Passing(rank, ranked, queues, picked, taken, mine, order, t, i) && |picked| == keep
    requires c in ranked && s in SourcesOf(c) && IdOf(c) !in taken && Fits(share, |order|, keep)
    ensures |NoWorse(rank, picked, s, c)| >= share
  {
    StillWaiting(rank, ranked, queues, picked, taken, mine, c, s);
    hide Cutting;
    hide NoWorse;
    assert s in order;
    var j :| 0 <= j < |order| && order[j] == s;
    AtLeastShare(keep, share, t, |order|, i, j);
    assert HadTurns(queues, mine, order[j], t + (if j < i then 1 else 0));
    Fewer(mine[s], NoWorse(rank, picked, s, c));
  }

  lemma StillWaiting(rank: Ranking, ranked: seq<Candidate>, queues: Queues, picked: seq<Candidate>, taken: set<Key>,
                     mine: map<string, set<Candidate>>, c: Candidate, s: string)
    requires Cutting(rank, ranked, queues, picked, taken, mine)
    requires c in ranked && s in SourcesOf(c) && IdOf(c) !in taken
    ensures s in queues && s in mine && queues[s] != [] && mine[s] <= NoWorse(rank, picked, s, c)
  {
    assert s in queues && c in queues[s];
  }

  lemma {:induction false} Fewer<T>(a: set<T>, b: set<T>)
    requires a <= b
    ensures |a| <= |b|
  {
    assert b == a + (b - a);
  }

  /** Enough, or all there is. */
  ghost predicate Enough(ranked: seq<Candidate>, picked: seq<Candidate>, keep: nat) {
    |picked| == keep || forall c :: c in ranked ==> IdOf(c) in Ids(picked)
  }

  lemma {:induction false} IdsCounted(cs: seq<Candidate>)
    requires forall i, j :: 0 <= i < j < |cs| ==> IdOf(cs[i]) != IdOf(cs[j])
    ensures |Ids(cs)| == |cs|
  {
    if |cs| > 0 {
      var init, c := cs[..|cs| - 1], cs[|cs| - 1];
      IdsCounted(init);
      IdsSnoc(init, c);
      assert cs == init + [c];
      forall i | 0 <= i < |init|
        ensures IdOf(init[i]) != IdOf(c)
      {
        assert init[i] == cs[i];
      }
      assert IdOf(c) !in Ids(init);
      hide Ids;
    } else {
      assert Ids(cs) == {};
    }
  }

  lemma EnoughIsCount(candidates: seq<Candidate>, ranked: seq<Candidate>, picked: seq<Candidate>, taken: set<Key>,
                      keep: nat)
    requires PickedSound(ranked, picked, taken) && Enough(ranked, picked, keep) && |picked| <= keep
    requires forall c :: c in ranked <==> c in candidates
    ensures |picked| == if keep < |Ids(candidates)| then keep else |Ids(candidates)|
  {
    IdsCounted(picked);
    forall c | c in picked
      ensures IdOf(c) in Ids(candidates)
    {
    }
    assert Ids(picked) <= Ids(candidates);
    Fewer(Ids(picked), Ids(candidates));
    if |picked| < keep {
      assert Ids(picked) == Ids(candidates);
    }
  }

  // ----- building the queues -----

  /** Every queue holds, best first, candidates of its source from the first `i`, and all of them. */
  ghost predicate Queued(rank: Ranking, ranked: seq<Candidate>, queues: Queues, i: nat)
    requires i <= |ranked|
  {
    && QueuesSound(rank, ranked[..i], queues) && queues.Keys <= SourcesIn(ranked)
    && forall c, s :: c in ranked[..i] && s in SourcesOf(c) ==> s in queues && c in queues[s]
  }

  function Queue(queues: Queues, s: string): seq<Candidate> {
    if s in queues then queues[s] else []
  }

  /** As `Queued`, with candidate `i` filed under some of its sources. */
  ghost predicate Filing(rank: Ranking, ranked: seq<Candidate>, before: Queues, queues: Queues, i: nat,
                         filed: set<string>)
    requires i < |ranked|
  {
    && queues.Keys == before.Keys + filed
    && forall s :: s in queues ==>
         queues[s] == Queue(before, s) + (if s in filed then [ranked[i]] else [])
  }

  lemma FileOne(rank: Ranking, ranked: seq<Candidate>, before: Queues, queues: Queues, i: nat, filed: set<string>,
                s: string)
    requires i < |ranked| && Filing(rank, ranked, before, queues, i, filed) && s !in filed
    ensures Filing(rank, ranked, before, queues[s := Queue(queues, s) + [ranked[i]]], i, filed + {s})
  {
  }

  lemma FiledQueue(rank: Ranking, q: seq<Candidate>, c: Candidate)
    requires BestFirst(rank, q) && forall d :: d in q ==> rank(d) <= rank(c)
    ensures BestFirst(rank, q + [c])
  {
    forall i | 0 <= i < |q|
      ensures rank(q[i]) <= rank(c)
    {
      assert q[i] in q;
    }
  }

  ghost predicate QueueSound(rank: Ranking, ranked: seq<Candidate>, q: seq<Candidate>, s: string) {
    BestFirst(rank, q) && forall c :: c in q ==> c in ranked && s in SourcesOf(c)
  }

  lemma FiledSound(rank: Ranking, ranked: seq<Candidate>, q: seq<Candidate>, i: nat, s: string)
    requires i < |ranked| && QueueSound(rank, ranked[..i], q, s)
    requires forall d :: d in q ==> rank(d) <= rank(ranked[i])
    ensures QueueSound(rank, ranked[..i + 1], q, s)
    ensures s in SourcesOf(ranked[i]) ==> QueueSound(rank, ranked[..i + 1], q + [ranked[i]], s)
  {
    assert ranked[..i + 1] == ranked[..i] + [ranked[i]];
    FiledQueue(rank, q, ranked[i]);
  }

  lemma FiledUnder(rank: Ranking, ranked: seq<Candidate>, before: Queues, queues: Queues, i: nat, s: string)
    requires i < |ranked| && BestFirst(rank, ranked) && Queued(rank, ranked, before, i) && s in queues
    requires Filing(rank, ranked, before, queues, i, SourcesOf(ranked[i]))
    ensures QueueSound(rank, ranked[..i + 1], queues[s], s) && s in SourcesIn(ranked)
  {
    hide BestFirst;
    if s in before {
      assert QueueSound(rank, ranked[..i], before[s], s);
      NoneWorseSoFar(rank, ranked, before, i, s);
    }
    EmptySound(rank, ranked[..i], s);
    FiledSound(rank, ranked, Queue(before, s), i, s);
    assert Queue(before, s) + [] == Queue(before, s);
  }

  lemma EmptySound(rank: Ranking, ranked: seq<Candidate>, s: string)
    ensures QueueSound(rank, ranked, [], s)
  {
  }

  lemma FiledHolds(rank: Ranking, ranked: seq<Candidate>, before: Queues, queues: Queues, i: nat, c: Candidate,
                   s: string)
    requires i < |ranked| && Queued(rank, ranked, before, i) && c in ranked[..i + 1] && s in SourcesOf(c)
    requires Filing(rank, ranked, before, queues, i, SourcesOf(ranked[i]))
    ensures s in queues && c in queues[s]
  {
    assert ranked[..i + 1] == ranked[..i] + [ranked[i]];
  }

  lemma FiledAll(rank: Ranking, ranked: seq<Candidate>, before: Queues, queues: Queues, i: nat)
    requires i < |ranked| && BestFirst(rank, ranked) && Queued(rank, ranked, before, i)
    requires Filing(rank, ranked, before, queues, i, SourcesOf(ranked[i]))
    ensures Queued(rank, ranked, queues, i + 1)
  {
    hide Filing;
    hide BestFirst;
    hide SourcesIn;
    forall s | s in queues
      ensures QueueSound(rank, ranked[..i + 1], queues[s], s) && s in SourcesIn(ranked)
    {
      FiledUnder(rank, ranked, before, queues, i, s);
    }
    forall c, s | c in ranked[..i + 1] && s in SourcesOf(c)
      ensures s in queues && c in queues[s]
    {
      FiledHolds(rank, ranked, before, queues, i, c, s);
    }
  }

  lemma NoneWorseSoFar(rank: Ranking, ranked: seq<Candidate>, queues: Queues, i: nat, s: string)
    requires i < |ranked| && BestFirst(rank, ranked) && Queued(rank, ranked, queues, i) && s in queues
    ensures forall d :: d in queues[s] ==> rank(d) <= rank(ranked[i])
  {
    forall d | d in queues[s]
      ensures rank(d) <= rank(ranked[i])
    {
      var j :| 0 <= j < i && ranked[..i][j] == d;
      assert ranked[j] == d;
    }
  }

  /** Files candidate `i` under each of its sources. */
  method FileCandidate(rank: Ranking, ranked: seq<Candidate>, before: Queues, i: nat) returns (queues: Queues)
    requires i < |ranked|
    ensures Filing(rank, ranked, before, queues, i, SourcesOf(ranked[i]))
  {
    hide Filing;
    queues := before;
    FileNone(rank, ranked, before, i);
    ghost var filed: set<string> := {};
    var pending := SourcesOf(ranked[i]);
    while pending != {}
      invariant pending <= SourcesOf(ranked[i]) && filed == SourcesOf(ranked[i]) - pending
      invariant Filing(rank, ranked, before, queues, i, filed)
      decreases |pending|
    {
      var s :| s in pending;
      FileOne(rank, ranked, before, queues, i, filed, s);
      queues := queues[s := Queue(queues, s) + [ranked[i]]];
      pending := pending - {s};
      filed := filed + {s};
    }
    assert filed == SourcesOf(ranked[i]);
  }

  lemma FileNone(rank: Ranking, ranked: seq<Candidate>, before: Queues, i: nat)
    requires i < |ranked|
    ensures Filing(rank, ranked, before, before, i, {})
  {
  }

  lemma NoneQueued(rank: Ranking, ranked: seq<Candidate>)
    ensures Queued(rank, ranked, map[], 0)
  {
  }

  method BuildQueues(rank: Ranking, ranked: seq<Candidate>) returns (queues: Queues)
    requires BestFirst(rank, ranked)
    ensures Queued(rank, ranked, queues, |ranked|)
  {
    hide Queued;
    hide Filing;
    queues := map[];
    NoneQueued(rank, ranked);
    for i := 0 to |ranked|
      invariant Queued(rank, ranked, queues, i)
    {
      var filed := FileCandidate(rank, ranked, queues, i);
      FiledAll(rank, ranked, queues, filed, i);
      queues := filed;
    }
  }

  /** The sources, in some order. */
  method ListSources(sources: set<string>) returns (order: seq<string>)
    ensures Listing(order, sources)
  {
    order := [];
    var pending := sources;
    while pending != {}
      invariant pending <= sources && Listing(order, sources - pending)
      decreases |pending|
    {
      var s :| s in pending;
      assert sources - (pending - {s}) == (sources - pending) + {s};
      pending := pending - {s};
      order := order + [s];
    }
    assert sources - pending == sources;
  }

  /** Nothing picked yet. */
  lemma CutBegins(rank: Ranking, candidates: seq<Candidate>, ranked: seq<Candidate>, queues: Queues,
                  order: seq<string>)
    requires Queued(rank, ranked, queues, |ranked|) && Listing(order, queues.Keys)
    requires forall c :: c in ranked <==> c in candidates
    ensures Passing(rank, ranked, queues, [], {}, map s | s in queues :: {}, order, 0, 0)
    ensures queues.Keys == SourcesIn(candidates)
  {
    assert ranked[..|ranked|] == ranked;
    var mine: map<string, set<Candidate>> := map s | s in queues :: {};
    forall j | 0 <= j < |order|
      ensures HadTurns(queues, mine, order[j], 0)
    {
      assert order[j] in order;
    }
    QueuesAreSources(rank, candidates, ranked, queues);
  }

  lemma QueuesAreSources(rank: Ranking, candidates: seq<Candidate>, ranked: seq<Candidate>, queues: Queues)
    requires Queued(rank, ranked, queues, |ranked|)
    requires forall c :: c in ranked <==> c in candidates
    ensures queues.Keys == SourcesIn(candidates)
  {
    assert ranked[..|ranked|] == ranked;
    forall s | s in SourcesIn(candidates)
      ensures s in queues
    {
      var c :| c in candidates && s in SourcesOf(c);
      assert c in ranked;
    }
    forall s | s in queues
      ensures s in SourcesIn(candidates)
    {
      var c :| c in ranked && s in SourcesOf(c);
      assert c in candidates;
    }
  }

  lemma CutEnds(rank: Ranking, candidates: seq<Candidate>, ranked: seq<Candidate>, queues: Queues,
                picked: seq<Candidate>, taken: set<Key>, mine: map<string, set<Candidate>>, order: seq<string>,
                t: nat, i: nat, keep: nat, share: nat)
    requires Passing(rank, ranked, queues, picked, taken, mine, order, t, i) && |picked| <= keep
    requires Enough(ranked, picked, keep) && Fits(share, |order|, keep)
    requires forall c :: c in ranked <==> c in candidates
    ensures FairlyCut(rank, candidates, keep, share, Sorted(rank, picked))
  {
    CutFacts(rank, ranked, queues, picked, taken, mine, order, t, i);
    hide FairTo;
    hide Passing;
    hide Enough;
    hide BestFirst;
    hide Ids;
    hide Sorted;
    hide Fits;
    forall c | c in candidates
      ensures FairTo(rank, picked, c, share)
    {
      LeftOutFairly(rank, ranked, queues, picked, taken, mine, order, t, i, keep, c, share);
    }
    EnoughIsCount(candidates, ranked, picked, taken, keep);
    assert forall c :: c in picked ==> c in candidates;
    hide PickedSound;
    SortedIsFair(rank, candidates, picked, share);
  }

  /** Sorting a fair cut leaves it fair. */
  lemma SortedIsFair(rank: Ranking, candidates: seq<Candidate>, picked: seq<Candidate>, share: nat)
    requires forall i, j :: 0 <= i < j < |picked| ==> IdOf(picked[i]) != IdOf(picked[j])
    requires forall c :: c in candidates ==> FairTo(rank, picked, c, share)
    ensures var kept := Sorted(rank, picked);
            && BestFirst(rank, kept) && |kept| == |picked| && (forall c :: c in kept <==> c in picked)
            && (forall i, j :: 0 <= i < j < |kept| ==> IdOf(kept[i]) != IdOf(kept[j]))
            && forall c :: c in candidates ==> FairTo(rank, kept, c, share)
  {
    hide Sorted;
    hide FairTo;
    hide BestFirst;
    SortedIsSorted(rank, picked);
    SortedMembers(rank, picked);
    SortedDistinct(rank, picked);
    forall c | c in candidates
      ensures FairTo(rank, Sorted(rank, picked), c, share)
    {
      SameFairness(rank, picked, Sorted(rank, picked), c, share);
    }
  }

  lemma CutFacts(rank: Ranking, ranked: seq<Candidate>, queues: Queues, picked: seq<Candidate>, taken: set<Key>,
                 mine: map<string, set<Candidate>>, order: seq<string>, t: nat, i: nat)
    requires Passing(rank, ranked, queues, picked, taken, mine, order, t, i)
    ensures PickedSound(ranked, picked, taken) && |order| == |queues.Keys|
  {
  }

  lemma LeftOutFairly(rank: Ranking, ranked: seq<Candidate>, queues: Queues, picked: seq<Candidate>, taken: set<Key>,
                      mine: map<string, set<Candidate>>, order: seq<string>, t: nat, i: nat, keep: nat, c: Candidate,
                      share: nat)
    requires Passing(rank, ranked, queues, picked, taken, mine, order, t, i)
    requires Enough(ranked, picked, keep) && c in ranked && Fits(share, |order|, keep)
    ensures FairTo(rank, picked, c, share)
  {
    CutFacts(rank, ranked, queues, picked, taken, mine, order, t, i);
    hide Passing;
    hide NoWorse;
    hide Ids;
    if IdOf(c) !in taken {
      assert |picked| == keep;
      hide Enough;
      hide PickedSound;
      forall s | s in SourcesOf(c)
        ensures |NoWorse(rank, picked, s, c)| >= share
      {
        WaitingHadShare(rank, ranked, queues, picked, taken, mine, order, t, i, c, s, keep, share);
      }
    }
  }

  lemma SameFairness(rank: Ranking, a: seq<Candidate>, b: seq<Candidate>, c: Candidate, share: nat)
    requires FairTo(rank, a, c, share) && forall d :: d in a <==> d in b
    ensures FairTo(rank, b, c, share)
  {
    assert Ids(a) == Ids(b);
    forall s
      ensures NoWorse(rank, a, s, c) == NoWorse(rank, b, s, c)
    {
    }
  }

  lemma SortedDistinct(rank: Ranking, cs: seq<Candidate>)
    requires forall i, j :: 0 <= i < j < |cs| ==> IdOf(cs[i]) != IdOf(cs[j])
    ensures var ks := Sorted(rank, cs); forall i, j :: 0 <= i < j < |ks| ==> IdOf(ks[i]) != IdOf(ks[j])
  {
    var ks := Sorted(rank, cs);
    SortedMembers(rank, cs);
    IdsCounted(cs);
    assert Ids(ks) == Ids(cs);
    DistinctByCount(ks);
  }

  lemma {:induction false} IdsAtMost(cs: seq<Candidate>)
    ensures |Ids(cs)| <= |cs|
  {
    if |cs| > 0 {
      IdsAtMost(cs[..|cs| - 1]);
      IdsSnoc(cs[..|cs| - 1], cs[|cs| - 1]);
      assert cs == cs[..|cs| - 1] + [cs[|cs| - 1]];
    }
  }

  lemma {:induction false} DistinctByCount(cs: seq<Candidate>)
    requires |Ids(cs)| == |cs|
    ensures forall i, j :: 0 <= i < j < |cs| ==> IdOf(cs[i]) != IdOf(cs[j])
  {
    if |cs| > 0 {
      var init, c := cs[..|cs| - 1], cs[|cs| - 1];
      assert cs == init + [c];
      IdsSnoc(init, c);
      IdsAtMost(init);
      DistinctByCount(init);
      forall i | 0 <= i < |init|
        ensures IdOf(init[i]) != IdOf(c)
      {
        assert init[i] in init;
        assert IdOf(init[i]) in Ids(init);
      }
    }
  }

  /** Everything, best first, if it fits; otherwise a fair cut of it. */
  method PreRank(rank: Ranking, candidates: seq<Candidate>, keep: nat) returns (kept: seq<Candidate>)
    ensures |candidates| <= keep ==> kept == Sorted(rank, candidates)
    ensures var found := set c, s | c in candidates && s in SourcesOf(c) :: s;
            |candidates| > keep && |found| > 0 ==> FairlyCut(rank, candidates, keep, keep / |found|, kept)
  {
    hide Queued;
    hide Passing;
    hide FairlyCut;
    hide Sorted;
    hide BestFirst;
    hide Fits;
    hide Listing;
    var ranked := Sorted(rank, candidates);
    SortedIsSorted(rank, candidates);
    SortedMembers(rank, candidates);
    if |ranked| <= keep {
      return ranked;
    }
    var queues := BuildQueues(rank, ranked);
    var order := ListSources(queues.Keys);
    CutBegins(rank, candidates, ranked, queues, order);
    ListedLength(order, queues.Keys);
    ShareFits(candidates, keep, |order|);
    kept := CutRounds(rank, candidates, ranked, queues, order, keep, ShareOf(candidates, keep));
  }

  /** An equal share of the cut for each source. */
  function ShareOf(candidates: seq<Candidate>, keep: nat): nat {
    var m := |SourcesIn(candidates)|;
    if m == 0 then 0 else keep / m
  }

  lemma ShareFits(candidates: seq<Candidate>, keep: nat, m: nat)
    requires m == |SourcesIn(candidates)|
    ensures Fits(ShareOf(candidates, keep), m, keep)
  {
  }

  /** Pass after pass, until enough are picked or a pass picks nothing. */
  method CutRounds(rank: Ranking, candidates: seq<Candidate>, ranked: seq<Candidate>, start: Queues,
                   order: seq<string>, keep: nat, ghost share: nat) returns (kept: seq<Candidate>)
    requires Passing(rank, ranked, start, [], {}, map s | s in start :: {}, order, 0, 0)
    requires Fits(share, |order|, keep) && forall c :: c in ranked <==> c in candidates
    ensures FairlyCut(rank, candidates, keep, share, kept)
  {
    hide Passing;
    hide FairlyCut;
    hide Sorted;
    hide Fits;
    hide Enough;
    var queues, picked, taken: set<Key> := start, [], {};
    ghost var mine: map<string, set<Candidate>> := map s | s in start :: {};
    ghost var t: nat, i: nat := 0, 0;
    PassKnows(rank, ranked, queues, picked, taken, mine, order, t, i, keep);
    var progressed := true;
    while |picked| < keep && progressed
      invariant Passing(rank, ranked, queues, picked, taken, mine, order, t, i) && |picked| <= keep
      invariant progressed && |picked| < keep ==> i == 0
      invariant |picked| == keep || !progressed ==> Enough(ranked, picked, keep)
      decreases keep - |picked|, progressed
    {
      var had := |picked|;
      queues, picked, taken, mine, i := OnePass(rank, ranked, queues, picked, taken, mine, order, keep, t);
      progressed := |picked| > had;
      PassKnows(rank, ranked, queues, picked, taken, mine, order, t, i, keep);
      if progressed && |picked| < keep {
        NextPass(rank, ranked, queues, picked, taken, mine, order, t);
        t, i := t + 1, 0;
      }
    }
    PassKnows(rank, ranked, queues, picked, taken, mine, order, t, i, keep);
    CutEnds(rank, candidates, ranked, queues, picked, taken, mine, order, t, i, keep, share);
    kept := Sorted(rank, picked);
  }

  function Members(order: seq<string>): set<string> {
    set s | s in order
  }

  lemma ListedLength(order: seq<string>, sources: set<string>)
    requires Listing(order, sources)
    ensures |order| == |sources|
  {
  }

  /** With every queue empty, every title was taken. */
  lemma PassKnows(rank: Ranking, ranked: seq<Candidate>, queues: Queues, picked: seq<Candidate>, taken: set<Key>,
                  mine: map<string, set<Candidate>>, order: seq<string>, t: nat, i: nat, keep: nat)
    requires Passing(rank, ranked, queues, picked, taken, mine, order, t, i)
    ensures |picked| == keep || (forall s :: s in queues ==> queues[s] == []) ==> Enough(ranked, picked, keep)
    ensures queues.Keys == Members(order)
  {
    assert queues.Keys == Members(order);
    if forall s :: s in queues ==> queues[s] == [] {
      forall c | c in ranked
        ensures IdOf(c) in Ids(picked)
      {
        var s :| s in SourcesOf(c);
        assert s in queues;
      }
    }
  }

  lemma NextPass(rank: Ranking, ranked: seq<Candidate>, queues: Queues, picked: seq<Candidate>, taken: set<Key>,
                 mine: map<string, set<Candidate>>, order: seq<string>, t: nat)
    requires Passing(rank, ranked, queues, picked, taken, mine, order, t, |order|)
    ensures Passing(rank, ranked, queues, picked, taken, mine, order, t + 1, 0)
  {
    hide Cutting;
    assert (t + 1) * |order| == t * |order| + |order|;
    forall j | 0 <= j < |order|
      ensures HadTurns(queues, mine, order[j], t + 1)
    {
      assert HadTurns(queues, mine, order[j], t + (if j < |order| then 1 else 0));
    }
  }
}
