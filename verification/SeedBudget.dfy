/** Choosing the seeds of a row: a lead that cycles through the newest watches, and a budget shared by media type. */
module SeedBudget {
  import opened Multiples
  import opened RequestAlloc

  /** A watched title; the more recently watched, the heavier. */
  datatype Seed = Seed(title: Title, weight: int)

  function IdOf(s: Seed): Key {
    KeyOf(s.title)
  }

  ghost predicate DistinctIds(seeds: seq<Seed>) {
    forall i, j :: 0 <= i < j < |seeds| ==> IdOf(seeds[i]) != IdOf(seeds[j])
  }

  function Ids(seeds: seq<Seed>): set<Key> {
    set s | s in seeds :: IdOf(s)
  }

  /** Seeds of one media type carry distinct ids in their own right. */
  ghost predicate OneMedia(seeds: seq<Seed>) {
    forall i, j :: 0 <= i < |seeds| && 0 <= j < |seeds| ==> seeds[i].title.media == seeds[j].title.media
  }

  // ----- the cycle -----

  function Place(s: Seed, seeds: seq<Seed>): seq<Seed> {
    if |seeds| == 0 || s.title.tmdbId <= seeds[0].title.tmdbId then [s] + seeds else [seeds[0]] + Place(s, seeds[1..])
  }

  /** Sorted by id, which no new watch shifts. */
  function ById(seeds: seq<Seed>): (sorted: seq<Seed>)
    ensures multiset(sorted) == multiset(seeds) && |sorted| == |seeds|
  {
    if |seeds| == 0 then []
    else
      var rest := ById(seeds[1..]);
      PlaceMembers(seeds[0], rest);
      assert seeds == [seeds[0]] + seeds[1..];
      Place(seeds[0], rest)
  }

  lemma {:induction false} PlaceMembers(s: Seed, seeds: seq<Seed>)
    ensures multiset(Place(s, seeds)) == multiset(seeds) + multiset{s} && |Place(s, seeds)| == |seeds| + 1
  {
    if |seeds| > 0 {
      PlaceMembers(s, seeds[1..]);
      assert seeds == [seeds[0]] + seeds[1..];
    }
  }

  function IndexOfId(seeds: seq<Seed>, id: int): (i: nat)
    requires exists s :: s in seeds && s.title.tmdbId == id
    ensures i < |seeds| && seeds[i].title.tmdbId == id
  {
    if seeds[0].title.tmdbId == id then 0 else 1 + IndexOfId(seeds[1..], id)
  }

  function Window(seeds: seq<Seed>, window: nat): nat {
    if window < |seeds| then window else |seeds|
  }

  lemma ChosenIsThere(seeds: seq<Seed>, w: nat, k: nat)
    requires k < w <= |seeds|
    ensures ById(seeds[..w])[k] in seeds[..w] && ById(seeds[..w])[k] in seeds
  {
    var c := ById(seeds[..w])[k];
    assert c in multiset(ById(seeds[..w]));
  }

  /** The step of a cycle of `w` an offset comes to. */
  function Step(offset: int, w: nat): (k: nat)
    requires w > 0
    ensures k < w
  {
    offset % w
  }

  /** Where the lead for this offset stands. */
  function LeadAt(seeds: seq<Seed>, window: nat, offset: int): (i: nat)
    requires Window(seeds, window) > 0
    ensures i < |seeds|
  {
    var w := Window(seeds, window);
    ChosenIsThere(seeds, w, Step(offset, w));
    IndexOfId(seeds, ById(seeds[..w])[Step(offset, w)].title.tmdbId)
  }

  /** The lead moved to the front, the rest kept in weight order behind it. */
  function CycleWindow(seeds: seq<Seed>, window: nat, offset: int): (cycled: seq<Seed>)
    ensures |cycled| == |seeds|
  {
    if Window(seeds, window) <= 1 then seeds
    else
      var i := LeadAt(seeds, window, offset);
      [seeds[i]] + seeds[..i] + seeds[i + 1..]
  }

  lemma CycleIsPermutation(seeds: seq<Seed>, window: nat, offset: int)
    ensures multiset(CycleWindow(seeds, window, offset)) == multiset(seeds)
    ensures |CycleWindow(seeds, window, offset)| == |seeds|
  {
    if Window(seeds, window) > 1 {
      var i := LeadAt(seeds, window, offset);
      assert seeds == seeds[..i] + [seeds[i]] + seeds[i + 1..];
    }
  }

  /** Any two seeds but the one that leads stand in the order they came in. */
  lemma CycleKeepsOrder(seeds: seq<Seed>, window: nat, offset: int, p: nat, q: nat) returns (a: nat, b: nat)
    requires p < q < |seeds|
    requires var lead := CycleWindow(seeds, window, offset)[0]; seeds[p] != lead && seeds[q] != lead
    ensures a < b < |CycleWindow(seeds, window, offset)|
    ensures CycleWindow(seeds, window, offset)[a] == seeds[p] && CycleWindow(seeds, window, offset)[b] == seeds[q]
  {
    if Window(seeds, window) <= 1 {
      a, b := p, q;
    } else {
      var i := LeadAt(seeds, window, offset);
      a, b := if p < i then p + 1 else p, if q < i then q + 1 else q;
    }
  }

  lemma {:induction false} IndexIsUnique(seeds: seq<Seed>, i: nat)
    requires i < |seeds| && DistinctIds(seeds) && OneMedia(seeds)
    ensures IndexOfId(seeds, seeds[i].title.tmdbId) == i
  {
    assert seeds[i] in seeds;
    var k := IndexOfId(seeds, seeds[i].title.tmdbId);
    assert IdOf(seeds[k]) == IdOf(seeds[i]);
  }

  /** `a` is `q` windows and a remainder. */
  lemma RemainderIs(a: int, q: int, r: int, w: nat)
    requires a == q * w + r && 0 <= r < w
    ensures a % w == r
  {
    var p := a / w;
    assert a == p * w + a % w;
    if p > q {
      OneMoreTimes(w, q, p);
    } else if q > p {
      OneMoreTimes(w, p, q);
    }
  }

  predicate Lands(offset: int, step: nat, w: nat, m: nat) {
    w > 0 && Step(offset + step, w) == m
  }

  lemma StepLands(offset: int, step: nat, w: nat)
    requires step < w
    ensures var r := offset % w;
            Step(offset + step, w) == if r + step < w then r + step else r + step - w
  {
    var r, q := offset % w, offset / w;
    if r + step < w {
      RemainderIs(offset + step, q, r + step, w);
    } else {
      RemainderIs(offset + step, q + 1, r + step - w, w);
    }
  }

  /** Over `w` consecutive offsets every remainder comes up once. */
  lemma EveryRemainderOnce(offset: int, w: nat, m: nat) returns (step: nat)
    requires m < w
    ensures step < w && Lands(offset, step, w, m)
    ensures forall other: nat :: other < w && Lands(offset, other, w, m) ==> other == step
  {
    var r := offset % w;
    step := if m >= r then m - r else m + w - r;
    StepLands(offset, step, w);
    forall other: nat | other < w && Lands(offset, other, w, m)
      ensures other == step
    {
      StepLands(offset, other, w);
    }
  }

  lemma LeadIsChosen(seeds: seq<Seed>, window: nat, offset: int)
    requires DistinctIds(seeds) && OneMedia(seeds) && Window(seeds, window) > 0
    ensures var w := Window(seeds, window);
            seeds[LeadAt(seeds, window, offset)] == ById(seeds[..w])[Step(offset, w)]
  {
    var w := Window(seeds, window);
    ChosenIsThere(seeds, w, Step(offset, w));
    var chosen := ById(seeds[..w])[Step(offset, w)];
    var j :| 0 <= j < |seeds| && seeds[j] == chosen;
    IndexIsUnique(seeds, j);
  }

  lemma {:induction false} CountInDistinct(seeds: seq<Seed>, s: Seed)
    requires DistinctIds(seeds)
    ensures multiset(seeds)[s] <= 1
  {
    if |seeds| > 0 {
      CountInDistinct(seeds[..|seeds| - 1], s);
      assert seeds == seeds[..|seeds| - 1] + [seeds[|seeds| - 1]];
    }
  }

  lemma {:induction false} TwicePresent(seeds: seq<Seed>, i: nat, j: nat)
    requires i < j < |seeds| && seeds[i] == seeds[j]
    ensures multiset(seeds)[seeds[i]] >= 2
  {
    assert seeds == seeds[..i] + [seeds[i]] + seeds[i + 1..j] + [seeds[j]] + seeds[j + 1..];
  }

  /** The watch that leads so many days on. */
  predicate LeadsAfter(seeds: seq<Seed>, window: nat, offset: int, step: nat, s: Seed)
    requires |seeds| > 0
  {
    CycleWindow(seeds, window, offset + step)[0] == s
  }

  lemma LeadIsFirst(seeds: seq<Seed>, window: nat, offset: int)
    requires DistinctIds(seeds) && OneMedia(seeds) && Window(seeds, window) > 1
    ensures var w := Window(seeds, window);
            CycleWindow(seeds, window, offset)[0] == ById(seeds[..w])[Step(offset, w)]
  {
    LeadIsChosen(seeds, window, offset);
  }

  lemma SameSlot(seeds: seq<Seed>, w: nat, k: nat, m: nat)
    requires DistinctIds(seeds) && k < w <= |seeds| && m < w
    ensures ById(seeds[..w])[k] == ById(seeds[..w])[m] <==> k == m
  {
    if ById(seeds[..w])[k] == ById(seeds[..w])[m] {
      SortedOnce(seeds[..w], k, m);
    }
  }

  lemma LeadsWhenItLands(seeds: seq<Seed>, window: nat, offset: int, step: nat, m: nat)
    requires DistinctIds(seeds) && OneMedia(seeds) && 1 < Window(seeds, window) && m < Window(seeds, window)
    ensures LeadsAfter(seeds, window, offset, step, ById(seeds[..Window(seeds, window)])[m])
            <==> Lands(offset, step, Window(seeds, window), m)
  {
    hide CycleWindow;
    hide ById;
    hide DistinctIds;
    hide OneMedia;
    hide Step;
    LeadIsFirst(seeds, window, offset + step);
    SameSlot(seeds, Window(seeds, window), Step(offset + step, Window(seeds, window)), m);
  }

  /** Each of the newest watches leads exactly once in as many consecutive offsets as the window is wide. */
  lemma EachLeadsOnce(seeds: seq<Seed>, window: nat, offset: int, i: nat) returns (step: nat)
    requires DistinctIds(seeds) && OneMedia(seeds) && 1 < Window(seeds, window) && i < Window(seeds, window)
    ensures step < Window(seeds, window) && LeadsAfter(seeds, window, offset, step, seeds[i])
    ensures forall other: nat :: other < Window(seeds, window) && LeadsAfter(seeds, window, offset, other, seeds[i]) ==>
              other == step
  {
    hide LeadsAfter;
    hide Lands;
    var w := Window(seeds, window);
    var m := PlaceById(seeds[..w], i);
    step := EveryRemainderOnce(offset, w, m);
    LeadsWhenItLands(seeds, window, offset, step, m);
    forall other: nat | other < w && LeadsAfter(seeds, window, offset, other, seeds[i])
      ensures other == step
    {
      LeadsWhenItLands(seeds, window, offset, other, m);
    }
  }

  lemma PlaceById(seeds: seq<Seed>, i: nat) returns (m: nat)
    requires i < |seeds|
    ensures m < |seeds| && ById(seeds)[m] == seeds[i]
  {
    assert seeds[i] in multiset(ById(seeds));
    m :| 0 <= m < |seeds| && ById(seeds)[m] == seeds[i];
  }

  lemma SortedOnce(seeds: seq<Seed>, i: nat, j: nat)
    requires DistinctIds(seeds) && i < |seeds| && j < |seeds| && ById(seeds)[i] == ById(seeds)[j]
    ensures i == j
  {
    CountInDistinct(seeds, ById(seeds)[i]);
    if i < j {
      TwicePresent(ById(seeds), i, j);
    } else if j < i {
      TwicePresent(ById(seeds), j, i);
    }
  }

  // ----- the budget -----

  /** The seeds of one media type, in order. */
  function Kind(seeds: seq<Seed>, media: MediaType): (own: seq<Seed>)
    ensures forall s :: s in own <==> s in seeds && s.title.media == media
  {
    if |seeds| == 0 then []
    else
      var s := seeds[|seeds| - 1];
      Kind(seeds[..|seeds| - 1], media) + (if s.title.media == media then [s] else [])
  }

  /** The seeds whose id is, or is not, among these, in order. */
  function Among(seeds: seq<Seed>, ids: set<Key>, within: bool): (some: seq<Seed>)
    ensures forall s :: s in some <==> s in seeds && (IdOf(s) in ids) == within
  {
    if |seeds| == 0 then []
    else
      var s := seeds[|seeds| - 1];
      Among(seeds[..|seeds| - 1], ids, within) + (if (IdOf(s) in ids) == within then [s] else [])
  }

  function Take(seeds: seq<Seed>, n: nat): seq<Seed> {
    if n < |seeds| then seeds[..n] else seeds
  }

  lemma IdsSnoc(seeds: seq<Seed>, s: Seed)
    ensures Ids(seeds + [s]) == Ids(seeds) + {IdOf(s)}
  {
    assert s in seeds + [s];
    forall t | t in seeds
      ensures t in seeds + [s]
    {
    }
  }

  lemma {:induction false} IdsCounted(seeds: seq<Seed>)
    ensures |Ids(seeds)| <= |seeds| && (DistinctIds(seeds) ==> |Ids(seeds)| == |seeds|)
  {
    if |seeds| > 0 {
      var init, s := seeds[..|seeds| - 1], seeds[|seeds| - 1];
      IdsCounted(init);
      IdsSnoc(init, s);
      assert seeds == init + [s];
    }
  }

  lemma {:induction false} KindDistinct(seeds: seq<Seed>, media: MediaType)
    requires DistinctIds(seeds)
    ensures DistinctIds(Kind(seeds, media)) && OneMedia(Kind(seeds, media))
  {
    if |seeds| > 0 {
      KindDistinct(seeds[..|seeds| - 1], media);
      var init := Kind(seeds[..|seeds| - 1], media);
      forall i | 0 <= i < |init|
        ensures IdOf(init[i]) != IdOf(seeds[|seeds| - 1])
      {
        assert init[i] in init;
      }
    }
    forall i | 0 <= i < |Kind(seeds, media)|
      ensures Kind(seeds, media)[i].title.media == media
    {
      assert Kind(seeds, media)[i] in Kind(seeds, media);
    }
  }

  lemma {:induction false} AmongDistinct(seeds: seq<Seed>, ids: set<Key>, within: bool)
    requires DistinctIds(seeds)
    ensures DistinctIds(Among(seeds, ids, within))
  {
    if |seeds| > 0 {
      AmongDistinct(seeds[..|seeds| - 1], ids, within);
      var init := Among(seeds[..|seeds| - 1], ids, within);
      forall i | 0 <= i < |init|
        ensures IdOf(init[i]) != IdOf(seeds[|seeds| - 1])
      {
        assert init[i] in init;
      }
    }
  }

  lemma AmongSnoc(seeds: seq<Seed>, s: Seed, ids: set<Key>, within: bool)
    ensures Among(seeds + [s], ids, within) ==
            Among(seeds, ids, within) + (if (IdOf(s) in ids) == within then [s] else [])
  {
    assert (seeds + [s])[..|seeds|] == seeds;
  }

  /** A third of the budget, and at least one seed, for each type present. */
  function PerType(maxSeeds: nat): nat {
    if maxSeeds / 3 > 1 then maxSeeds / 3 else 1
  }

  lemma TwoSharesFit(maxSeeds: nat)
    requires maxSeeds >= 2
    ensures 2 * PerType(maxSeeds) <= maxSeeds
  {
  }

  function Reserved(movies: seq<Seed>, shows: seq<Seed>, maxSeeds: nat): set<Key> {
    Ids(Take(movies, PerType(maxSeeds))) + Ids(Take(shows, PerType(maxSeeds)))
  }

  /** The reserved seeds first, each group in its own order, cut to the budget. */
  function Balanced(seeds: seq<Seed>, movies: seq<Seed>, shows: seq<Seed>, maxSeeds: nat): seq<Seed> {
    var reserved := Reserved(movies, shows, maxSeeds);
    Take(Among(seeds, reserved, true) + Among(seeds, reserved, false), maxSeeds)
  }

  /** The movies and the shows of the seeds, in any order. */
  ghost predicate Grouped(seeds: seq<Seed>, movies: seq<Seed>, shows: seq<Seed>) {
    && (forall s :: s in movies <==> s in seeds && s.title.media == Movie)
    && (forall s :: s in shows <==> s in seeds && s.title.media == Show)
    && DistinctIds(movies) && DistinctIds(shows)
  }

  lemma TakeDistinct(seeds: seq<Seed>, n: nat)
    requires DistinctIds(seeds)
    ensures |Ids(Take(seeds, n))| == (if n < |seeds| then n else |seeds|)
    ensures forall s :: s in Take(seeds, n) ==> s in seeds
  {
    IdsCounted(Take(seeds, n));
  }

  lemma ReservedFit(movies: seq<Seed>, shows: seq<Seed>, maxSeeds: nat)
    requires DistinctIds(movies) && DistinctIds(shows) && maxSeeds >= 2
    ensures |Reserved(movies, shows, maxSeeds)| <= maxSeeds
  {
    var per := PerType(maxSeeds);
    TakeDistinct(movies, per);
    TakeDistinct(shows, per);
    UnionAtMost(Ids(Take(movies, per)), Ids(Take(shows, per)));
    TwoSharesFit(maxSeeds);
  }

  lemma AmongAtMost(seeds: seq<Seed>, ids: set<Key>)
    requires DistinctIds(seeds)
    ensures |Among(seeds, ids, true)| <= |ids|
  {
    var some := Among(seeds, ids, true);
    AmongDistinct(seeds, ids, true);
    IdsCounted(some);
    assert Ids(some) <= ids;
    Smaller(Ids(some), ids);
  }

  /** Every reserved seed makes the cut. */
  lemma ReservedAreKept(seeds: seq<Seed>, movies: seq<Seed>, shows: seq<Seed>, maxSeeds: nat)
    requires DistinctIds(seeds) && Grouped(seeds, movies, shows) && maxSeeds >= 2
    ensures Among(seeds, Reserved(movies, shows, maxSeeds), true) <= Balanced(seeds, movies, shows, maxSeeds)
  {
    hide Among;
    hide Reserved;
    ReservedFit(movies, shows, maxSeeds);
    AmongAtMost(seeds, Reserved(movies, shows, maxSeeds));
  }

  lemma UnionAtMost(a: set<Key>, b: set<Key>)
    ensures |a + b| <= |a| + |b|
  {
    assert a + b == a + (b - a);
    Smaller(b - a, b);
  }

  lemma Smaller(a: set<Key>, b: set<Key>)
    requires a <= b
    ensures |a| <= |b|
  {
    assert b == a + (b - a);
  }

  /** Each media type present keeps a third of the budget, or all its seeds if it has fewer. */
  lemma EachTypeKeepsItsShare(seeds: seq<Seed>, movies: seq<Seed>, shows: seq<Seed>, maxSeeds: nat, media: MediaType)
    requires DistinctIds(seeds) && Grouped(seeds, movies, shows) && maxSeeds >= 2
    ensures var own := if media.Movie? then movies else shows;
            var kept := Kind(Balanced(seeds, movies, shows, maxSeeds), media);
            |kept| >= |own| || (|kept| >= 1 && |kept| >= maxSeeds / 3)
  {
    var own, per := if media.Movie? then movies else shows, PerType(maxSeeds);
    var kept := Balanced(seeds, movies, shows, maxSeeds);
    ReservedAreKept(seeds, movies, shows, maxSeeds);
    TakeDistinct(own, per);
    forall s | s in Take(own, per)
      ensures IdOf(s) in Ids(Kind(kept, media))
    {
      TakenIsKept(seeds, movies, shows, maxSeeds, media, s);
    }
    assert Ids(Take(own, per)) <= Ids(Kind(kept, media));
    Smaller(Ids(Take(own, per)), Ids(Kind(kept, media)));
    IdsCounted(Kind(kept, media));
  }

  lemma TakenIsKept(seeds: seq<Seed>, movies: seq<Seed>, shows: seq<Seed>, maxSeeds: nat, media: MediaType, s: Seed)
    requires DistinctIds(seeds) && Grouped(seeds, movies, shows) && maxSeeds >= 2
    requires s in Take(if media.Movie? then movies else shows, PerType(maxSeeds))
    ensures s in Kind(Balanced(seeds, movies, shows, maxSeeds), media)
  {
    var reserved := Reserved(movies, shows, maxSeeds);
    ReservedAreKept(seeds, movies, shows, maxSeeds);
    TakeDistinct(if media.Movie? then movies else shows, PerType(maxSeeds));
    assert IdOf(s) in Ids(Take(if media.Movie? then movies else shows, PerType(maxSeeds)));
    assert s in Among(seeds, reserved, true);
    PrefixHolds(Among(seeds, reserved, true), Balanced(seeds, movies, shows, maxSeeds), s);
  }

  lemma PrefixHolds(a: seq<Seed>, b: seq<Seed>, s: Seed)
    requires a <= b && s in a
    ensures s in b
  {
    var i :| 0 <= i < |a| && a[i] == s;
    assert b[i] == s;
  }

  // ----- leading with what the cycle chose -----

  /** The first of each group, the heavier first; a movie on a tie. */
  function Leads(movies: seq<Seed>, shows: seq<Seed>): (leads: seq<Seed>) {
    if |movies| == 0 then Take(shows, 1)
    else if |shows| == 0 then Take(movies, 1)
    else if movies[0].weight >= shows[0].weight then [movies[0], shows[0]]
    else [shows[0], movies[0]]
  }

  /** The leads first, then every other seed in weight order. */
  function Led(seeds: seq<Seed>, movies: seq<Seed>, shows: seq<Seed>): seq<Seed> {
    var leads := Leads(movies, shows);
    leads + Among(seeds, Ids(leads), false)
  }

  lemma {:induction false} ByIdMember(seeds: seq<Seed>, s: Seed, t: Seed)
    requires DistinctIds(seeds) && s in seeds && t in seeds && IdOf(s) == IdOf(t)
    ensures s == t
  {
    var i :| 0 <= i < |seeds| && seeds[i] == s;
    var j :| 0 <= j < |seeds| && seeds[j] == t;
  }

  lemma LeadsAreSeeds(seeds: seq<Seed>, movies: seq<Seed>, shows: seq<Seed>)
    requires Grouped(seeds, movies, shows)
    ensures forall s :: s in Leads(movies, shows) ==> s in seeds
    ensures DistinctIds(Leads(movies, shows))
  {
    if |movies| > 0 {
      assert movies[0] in movies;
    }
    if |shows| > 0 {
      assert shows[0] in shows;
    }
  }

  lemma LedSame(seeds: seq<Seed>, movies: seq<Seed>, shows: seq<Seed>)
    requires DistinctIds(seeds) && Grouped(seeds, movies, shows)
    ensures DistinctIds(Led(seeds, movies, shows))
    ensures forall s :: s in Led(seeds, movies, shows) <==> s in seeds
  {
    var leads := Leads(movies, shows);
    var rest := Among(seeds, Ids(leads), false);
    LeadsAreSeeds(seeds, movies, shows);
    AmongDistinct(seeds, Ids(leads), false);
    forall s | s in leads
      ensures IdOf(s) in Ids(leads)
    {
    }
    JoinDistinct(leads, rest);
    forall s | s in seeds
      ensures s in leads + rest
    {
      if IdOf(s) in Ids(leads) {
        var l :| l in leads && IdOf(l) == IdOf(s);
        ByIdMember(seeds, s, l);
      }
    }
  }

  lemma JoinDistinct(a: seq<Seed>, b: seq<Seed>)
    requires DistinctIds(a) && DistinctIds(b)
    requires forall s, t :: s in a && t in b ==> IdOf(s) != IdOf(t)
    ensures DistinctIds(a + b)
  {
    var c := a + b;
    forall i, j | 0 <= i < j < |c|
      ensures IdOf(c[i]) != IdOf(c[j])
    {
      if i < |a| <= j {
        assert a[i] in a && b[j - |a|] in b;
      }
    }
  }

  lemma {:induction false} AmongStarts(seeds: seq<Seed>, ids: set<Key>)
    requires |seeds| > 0 && IdOf(seeds[0]) in ids
    ensures |Among(seeds, ids, true)| > 0 && Among(seeds, ids, true)[0] == seeds[0]
  {
    if |seeds| > 1 {
      AmongStarts(seeds[..|seeds| - 1], ids);
    } else {
      assert seeds == [] + [seeds[0]];
      AmongSnoc([], seeds[0], ids, true);
    }
  }

  /** The balanced list still leads with the heavier of the two leads. */
  lemma BalancedLeads(seeds: seq<Seed>, movies: seq<Seed>, shows: seq<Seed>, maxSeeds: nat)
    requires |movies| > 0 && |shows| > 0 && maxSeeds > 0
    ensures var balanced := Balanced(Led(seeds, movies, shows), movies, shows, maxSeeds);
            |balanced| > 0 && balanced[0] == Leads(movies, shows)[0]
  {
    var led, reserved := Led(seeds, movies, shows), Reserved(movies, shows, maxSeeds);
    FirstReserved(movies, PerType(maxSeeds));
    FirstReserved(shows, PerType(maxSeeds));
    AmongStarts(led, reserved);
  }

  lemma FirstReserved(own: seq<Seed>, per: nat)
    requires |own| > 0 && per > 0
    ensures IdOf(own[0]) in Ids(Take(own, per))
  {
    assert Take(own, per)[0] == own[0];
  }

  /** What the chosen seeds must be: some of the seeds, no more than the budget, each type with a third of it or all the
      type's seeds. */
  ghost predicate WellChosen(seeds: seq<Seed>, chosen: seq<Seed>, maxSeeds: nat) {
    && DistinctIds(chosen) && (forall s :: s in chosen ==> s in seeds)
    && |chosen| == (if maxSeeds < |seeds| then maxSeeds else |seeds|)
    && (maxSeeds >= 2 ==> forall media ::
          Kind(seeds, Movie) != [] && Kind(seeds, Show) != [] ==> KeepsShare(seeds, chosen, maxSeeds, media))
  }

  ghost predicate KeepsShare(seeds: seq<Seed>, chosen: seq<Seed>, maxSeeds: nat, media: MediaType) {
    || |Kind(chosen, media)| >= |Kind(seeds, media)|
    || (|Kind(chosen, media)| >= 1 && |Kind(chosen, media)| >= maxSeeds / 3)
  }

  lemma GroupedByKind(seeds: seq<Seed>)
    requires DistinctIds(seeds)
    ensures Grouped(seeds, Kind(seeds, Movie), Kind(seeds, Show))
  {
    KindDistinct(seeds, Movie);
    KindDistinct(seeds, Show);
  }

  lemma {:induction false} SameMembersDistinct(a: seq<Seed>, b: seq<Seed>)
    requires multiset(a) == multiset(b) && DistinctIds(b)
    ensures DistinctIds(a) && forall s :: s in a <==> s in b
  {
    forall s
      ensures s in a <==> s in b
    {
      assert s in a <==> s in multiset(a);
      assert s in b <==> s in multiset(b);
    }
    forall i, j | 0 <= i < j < |a|
      ensures IdOf(a[i]) != IdOf(a[j])
    {
      assert a[i] in b && a[j] in b;
      if IdOf(a[i]) == IdOf(a[j]) {
        ByIdMember(b, a[i], a[j]);
        TwicePresent(a, i, j);
        CountInDistinct(b, a[i]);
      }
    }
  }

  lemma GroupedAfterCycle(seeds: seq<Seed>, window: nat, offset: int)
    requires DistinctIds(seeds)
    ensures Grouped(seeds, CycleWindow(Kind(seeds, Movie), window, offset),
                    CycleWindow(Kind(seeds, Show), window, offset))
  {
    GroupedByKind(seeds);
    CycleIsPermutation(Kind(seeds, Movie), window, offset);
    CycleIsPermutation(Kind(seeds, Show), window, offset);
    SameMembersDistinct(CycleWindow(Kind(seeds, Movie), window, offset), Kind(seeds, Movie));
    SameMembersDistinct(CycleWindow(Kind(seeds, Show), window, offset), Kind(seeds, Show));
  }

  lemma BalancedIsChosen(seeds: seq<Seed>, ordered: seq<Seed>, movies: seq<Seed>, shows: seq<Seed>, maxSeeds: nat)
    requires DistinctIds(seeds) && DistinctIds(ordered) && forall s :: s in ordered <==> s in seeds
    requires Grouped(seeds, movies, shows)
    requires |movies| == |Kind(seeds, Movie)| && |shows| == |Kind(seeds, Show)|
    ensures WellChosen(seeds, Balanced(ordered, movies, shows, maxSeeds), maxSeeds)
  {
    hide Balanced;
    hide Kind;
    hide DistinctIds;
    hide Grouped;
    BalancedMembers(ordered, movies, shows, maxSeeds);
    SameCount(ordered, seeds);
    SameGroups(seeds, ordered, movies, shows);
    if maxSeeds >= 2 {
      forall media
        ensures KeepsShare(seeds, Balanced(ordered, movies, shows, maxSeeds), maxSeeds, media)
      {
        EachTypeKeepsItsShare(ordered, movies, shows, maxSeeds, media);
      }
    }
  }

  lemma SameGroups(seeds: seq<Seed>, ordered: seq<Seed>, movies: seq<Seed>, shows: seq<Seed>)
    requires Grouped(seeds, movies, shows) && forall s :: s in ordered <==> s in seeds
    ensures Grouped(ordered, movies, shows)
  {
  }

  lemma BalancedMembers(ordered: seq<Seed>, movies: seq<Seed>, shows: seq<Seed>, maxSeeds: nat)
    requires DistinctIds(ordered)
    ensures var chosen := Balanced(ordered, movies, shows, maxSeeds);
            && DistinctIds(chosen) && (forall s :: s in chosen ==> s in ordered)
            && |chosen| == (if maxSeeds < |ordered| then maxSeeds else |ordered|)
  {
    hide Among;
    hide Reserved;
    var reserved := Reserved(movies, shows, maxSeeds);
    var first, rest := Among(ordered, reserved, true), Among(ordered, reserved, false);
    AmongDistinct(ordered, reserved, true);
    AmongDistinct(ordered, reserved, false);
    JoinDistinct(first, rest);
    SameCount(first + rest, ordered);
  }

  lemma SameCount(a: seq<Seed>, b: seq<Seed>)
    requires DistinctIds(a) && DistinctIds(b) && forall s :: s in a <==> s in b
    ensures |a| == |b|
  {
    IdsCounted(a);
    IdsCounted(b);
    assert Ids(a) == Ids(b);
  }

  lemma TakenIsChosen(seeds: seq<Seed>, ordered: seq<Seed>, maxSeeds: nat)
    requires DistinctIds(seeds) && DistinctIds(ordered) && forall s :: s in ordered <==> s in seeds
    requires Kind(seeds, Movie) == [] || Kind(seeds, Show) == []
    ensures WellChosen(seeds, Take(ordered, maxSeeds), maxSeeds)
  {
    SameCount(ordered, seeds);
  }

  /** The seeds chosen, in order. */
  function Chosen(weighted: seq<Seed>, maxSeeds: nat, window: nat, offset: int): seq<Seed> {
    var cycles := window > 1;
    var movies := if cycles then CycleWindow(Kind(weighted, Movie), window, offset) else Kind(weighted, Movie);
    var shows := if cycles then CycleWindow(Kind(weighted, Show), window, offset) else Kind(weighted, Show);
    var seeds := if cycles then Led(weighted, movies, shows) else weighted;
    if |movies| == 0 || |shows| == 0 then Take(seeds, maxSeeds) else Balanced(seeds, movies, shows, maxSeeds)
  }

  /** The row's seeds: led by what the cycle chose, balanced between media types, within the budget. */
  method ChooseSeeds(weighted: seq<Seed>, maxSeeds: nat, window: nat, offset: int) returns (chosen: seq<Seed>)
    ensures chosen == Chosen(weighted, maxSeeds, window, offset)
    ensures DistinctIds(weighted) ==> WellChosen(weighted, chosen, maxSeeds)
    ensures window > 1 && maxSeeds > 0 && |weighted| > 0 ==>
              var leads := Leads(CycleWindow(Kind(weighted, Movie), window, offset),
                                 CycleWindow(Kind(weighted, Show), window, offset));
              |leads| > 0 && |chosen| > 0 && chosen[0] == leads[0]
  {
    hide WellChosen;
    hide CycleWindow;
    hide Balanced;
    hide DistinctIds;
    hide Grouped;
    hide Led;
    hide Leads;
    hide Kind;
    var seeds := weighted;
    var movies, shows := Kind(seeds, Movie), Kind(seeds, Show);
    SomeKind(weighted);
    if DistinctIds(weighted) {
      GroupedByKind(weighted);
    }
    if window > 1 {
      CycleIsPermutation(movies, window, offset);
      CycleIsPermutation(shows, window, offset);
      if DistinctIds(weighted) {
        GroupedAfterCycle(weighted, window, offset);
      }
      movies, shows := CycleWindow(movies, window, offset), CycleWindow(shows, window, offset);
      LedStarts(weighted, movies, shows);
      if DistinctIds(weighted) {
        LedSame(weighted, movies, shows);
      }
      seeds := Led(seeds, movies, shows);
    }
    if |movies| == 0 || |shows| == 0 {
      if DistinctIds(weighted) {
        TakenIsChosen(weighted, seeds, maxSeeds);
      }
      return Take(seeds, maxSeeds);
    }
    if DistinctIds(weighted) {
      BalancedIsChosen(weighted, seeds, movies, shows, maxSeeds);
    }
    if window > 1 && maxSeeds > 0 {
      BalancedLeads(weighted, movies, shows, maxSeeds);
    }
    chosen := Balanced(seeds, movies, shows, maxSeeds);
  }

  lemma LedStarts(seeds: seq<Seed>, movies: seq<Seed>, shows: seq<Seed>)
    ensures |movies| > 0 || |shows| > 0 ==>
              |Leads(movies, shows)| > 0 && |Led(seeds, movies, shows)| > 0
              && Led(seeds, movies, shows)[0] == Leads(movies, shows)[0]
  {
  }

  lemma SomeKind(seeds: seq<Seed>)
    ensures |seeds| > 0 ==> |Kind(seeds, Movie)| > 0 || |Kind(seeds, Show)| > 0
  {
    if |seeds| > 0 {
      var s := seeds[0];
      assert s in Kind(seeds, s.title.media);
    }
  }
}
