/** The order of a row's seeds: which watch leads, which seeds the budget leaves out, and how the rest follow. */
module SeedOrder {
  import opened RequestAlloc
  import opened SeedBudget

  /** The one seed stands somewhere before the other. */
  ghost predicate Before(seeds: seq<Seed>, s: Seed, t: Seed) {
    exists p, q :: 0 <= p < q < |seeds| && seeds[p] == s && seeds[q] == t
  }

  lemma BeforeAt(seeds: seq<Seed>, p: nat, q: nat)
    requires p < q < |seeds|
    ensures Before(seeds, seeds[p], seeds[q])
  {
  }

  lemma SamePlace(seeds: seq<Seed>, p: nat, q: nat)
    requires DistinctIds(seeds) && p < |seeds| && q < |seeds| && seeds[p] == seeds[q]
    ensures p == q
  {
    assert IdOf(seeds[p]) == IdOf(seeds[q]);
  }

  lemma PlacesDecide(seeds: seq<Seed>, p: nat, q: nat)
    requires DistinctIds(seeds) && p < |seeds| && q < |seeds| && p != q
    ensures Before(seeds, seeds[p], seeds[q]) <==> p < q
  {
    if k, l :| 0 <= k < l < |seeds| && seeds[k] == seeds[p] && seeds[l] == seeds[q] {
      SamePlace(seeds, k, p);
      SamePlace(seeds, l, q);
    }
  }

  /** Of two seeds each stands before the other or behind it, never both. */
  lemma OneWay(seeds: seq<Seed>, s: Seed, t: Seed)
    requires DistinctIds(seeds) && s in seeds && t in seeds && s != t
    ensures Before(seeds, s, t) <==> !Before(seeds, t, s)
  {
    hide Before;
    hide DistinctIds;
    var p :| 0 <= p < |seeds| && seeds[p] == s;
    var q :| 0 <= q < |seeds| && seeds[q] == t;
    PlacesDecide(seeds, p, q);
    PlacesDecide(seeds, q, p);
  }

  lemma InLonger(seeds: seq<Seed>, last: Seed, s: Seed, t: Seed)
    requires Before(seeds, s, t) || (s in seeds && t == last)
    ensures Before(seeds + [last], s, t)
  {
    var all := seeds + [last];
    if p, q :| 0 <= p < q < |seeds| && seeds[p] == s && seeds[q] == t {
      assert all[p] == s && all[q] == t;
    } else {
      var p :| 0 <= p < |seeds| && seeds[p] == s;
      assert all[p] == s && all[|seeds|] == t;
    }
  }

  lemma {:induction false} AmongInOrder(seeds: seq<Seed>, ids: set<Key>, within: bool, s: Seed, t: Seed)
    requires Before(Among(seeds, ids, within), s, t)
    ensures Before(seeds, s, t)
  {
    if |seeds| > 0 {
      var init, last := seeds[..|seeds| - 1], seeds[|seeds| - 1];
      var some := Among(init, ids, within);
      if Before(some, s, t) {
        AmongInOrder(init, ids, within, s, t);
      } else {
        var p, q :| 0 <= p < q < |Among(seeds, ids, within)|
                    && Among(seeds, ids, within)[p] == s && Among(seeds, ids, within)[q] == t;
        assert q == |some| && s == some[p] && s in init;
      }
      InLonger(init, last, s, t);
      assert seeds == init + [last];
    }
  }

  lemma {:induction false} KindInOrder(seeds: seq<Seed>, media: MediaType, s: Seed, t: Seed)
    requires Before(Kind(seeds, media), s, t)
    ensures Before(seeds, s, t)
  {
    if |seeds| > 0 {
      var init, last := seeds[..|seeds| - 1], seeds[|seeds| - 1];
      var own := Kind(init, media);
      if Before(own, s, t) {
        KindInOrder(init, media, s, t);
      } else {
        var p, q :| 0 <= p < q < |Kind(seeds, media)| && Kind(seeds, media)[p] == s && Kind(seeds, media)[q] == t;
        assert q == |own| && s == own[p] && s in init;
      }
      InLonger(init, last, s, t);
      assert seeds == init + [last];
    }
  }

  /** The seeds of one type stand among themselves as they did among all. */
  lemma KindKeepsOrder(seeds: seq<Seed>, media: MediaType, s: Seed, t: Seed)
    requires DistinctIds(seeds) && s != t
    ensures Before(Kind(seeds, media), s, t) <==>
            Before(seeds, s, t) && s.title.media == media && t.title.media == media
  {
    if Before(Kind(seeds, media), s, t) {
      KindInOrder(seeds, media, s, t);
      assert s in Kind(seeds, media) && t in Kind(seeds, media);
    } else if Before(seeds, s, t) && s.title.media == media && t.title.media == media {
      KindDistinct(seeds, media);
      OneWay(Kind(seeds, media), s, t);
      OneWay(seeds, s, t);
      KindInOrder(seeds, media, t, s);
    }
  }

  // ----- the budget -----

  /** One of the first seeds of its type, up to a third of the budget and at least one. */
  ghost predicate InShare(movies: seq<Seed>, shows: seq<Seed>, maxSeeds: nat, s: Seed) {
    exists k :: 0 <= k && (k == 0 || 3 * (k + 1) <= maxSeeds)
                && ((k < |movies| && movies[k] == s) || (k < |shows| && shows[k] == s))
  }

  /** Shares come before everything else; otherwise the seeds stand as they did. */
  ghost predicate Outranks(seeds: seq<Seed>, movies: seq<Seed>, shows: seq<Seed>, maxSeeds: nat, s: Seed, t: Seed) {
    if InShare(movies, shows, maxSeeds, s) == InShare(movies, shows, maxSeeds, t) then Before(seeds, s, t)
    else InShare(movies, shows, maxSeeds, s)
  }

  lemma TakenAt(own: seq<Seed>, maxSeeds: nat, s: Seed)
    ensures s in Take(own, PerType(maxSeeds)) <==>
            exists k :: 0 <= k < |own| && (k == 0 || 3 * (k + 1) <= maxSeeds) && own[k] == s
  {
    var taken := Take(own, PerType(maxSeeds));
    if s in taken {
      var k :| 0 <= k < |taken| && taken[k] == s;
      assert own[k] == s;
    }
    if k :| 0 <= k < |own| && (k == 0 || 3 * (k + 1) <= maxSeeds) && own[k] == s {
      assert taken[k] == s;
    }
  }

  lemma ShareIsReserved(seeds: seq<Seed>, movies: seq<Seed>, shows: seq<Seed>, maxSeeds: nat, s: Seed)
    requires DistinctIds(seeds) && Grouped(seeds, movies, shows) && s in seeds
    ensures InShare(movies, shows, maxSeeds, s) <==> IdOf(s) in Reserved(movies, shows, maxSeeds)
  {
    hide PerType;
    TakenAt(movies, maxSeeds, s);
    TakenAt(shows, maxSeeds, s);
    var reserved := Take(movies, PerType(maxSeeds)) + Take(shows, PerType(maxSeeds));
    if IdOf(s) in Reserved(movies, shows, maxSeeds) {
      var l :| l in reserved && IdOf(l) == IdOf(s);
      assert l in movies || l in shows;
      ByIdMember(seeds, s, l);
    }
  }

  lemma PlaceIn(seeds: seq<Seed>, ids: set<Key>, s: Seed) returns (p: nat)
    requires s in seeds
    ensures var a, r := Among(seeds, ids, true), Among(seeds, ids, false);
            && p < |a + r| && (a + r)[p] == s && (p < |a| <==> IdOf(s) in ids)
  {
    var a, r := Among(seeds, ids, true), Among(seeds, ids, false);
    if IdOf(s) in ids {
      assert s in a;
      p :| 0 <= p < |a| && a[p] == s;
    } else {
      assert s in r;
      var q :| 0 <= q < |r| && r[q] == s;
      p := |a| + q;
    }
  }

  /** A part of the seeds stands as they do. */
  lemma AmongFollows(seeds: seq<Seed>, ids: set<Key>, within: bool, p: nat, q: nat)
    requires DistinctIds(seeds)
    requires var some := Among(seeds, ids, within); p < |some| && q < |some| && some[p] != some[q]
    ensures var some := Among(seeds, ids, within);
            p < q <==> Before(seeds, some[p], some[q])
  {
    hide DistinctIds;
    hide Before;
    var some := Among(seeds, ids, within);
    assert some[p] in some && some[q] in some;
    var lo, hi := if p < q then p else q, if p < q then q else p;
    BeforeAt(some, lo, hi);
    AmongInOrder(seeds, ids, within, some[lo], some[hi]);
    OneWay(seeds, some[lo], some[hi]);
  }

  /** The balanced seeds stand by rank, and the budget cuts off whatever ranks last. */
  lemma BalancedByRank(seeds: seq<Seed>, movies: seq<Seed>, shows: seq<Seed>, maxSeeds: nat, s: Seed, t: Seed)
    requires DistinctIds(seeds) && Grouped(seeds, movies, shows) && s in seeds && t in seeds && s != t
    ensures var balanced := Balanced(seeds, movies, shows, maxSeeds);
            t in balanced ==> (Before(balanced, s, t) <==> Outranks(seeds, movies, shows, maxSeeds, s, t))
  {
    hide Among;
    hide Before;
    hide InShare;
    hide Reserved;
    hide Grouped;
    var reserved := Reserved(movies, shows, maxSeeds);
    var a, r := Among(seeds, reserved, true), Among(seeds, reserved, false);
    var balanced := Balanced(seeds, movies, shows, maxSeeds);
    ShareIsReserved(seeds, movies, shows, maxSeeds, s);
    ShareIsReserved(seeds, movies, shows, maxSeeds, t);
    var p := PlaceIn(seeds, reserved, s);
    var q := PlaceIn(seeds, reserved, t);
    if p < |a| && q < |a| {
      AmongFollows(seeds, reserved, true, p, q);
    } else if p >= |a| && q >= |a| {
      AmongFollows(seeds, reserved, false, p - |a|, q - |a|);
    }
    if t in balanced {
      AllDistinct(seeds, reserved);
      CutAt(a + r, maxSeeds, p, q);
    }
  }

  lemma AllDistinct(seeds: seq<Seed>, ids: set<Key>)
    requires DistinctIds(seeds)
    ensures DistinctIds(Among(seeds, ids, true) + Among(seeds, ids, false))
  {
    AmongDistinct(seeds, ids, true);
    AmongDistinct(seeds, ids, false);
    JoinDistinct(Among(seeds, ids, true), Among(seeds, ids, false));
  }

  /** Of a list cut to size, what is left stands as it did. */
  lemma CutAt(all: seq<Seed>, n: nat, p: nat, q: nat)
    requires DistinctIds(all) && p < |all| && q < |all| && p != q && all[q] in Take(all, n)
    ensures Before(Take(all, n), all[p], all[q]) <==> p < q
  {
    var cut := Take(all, n);
    var i :| 0 <= i < |cut| && cut[i] == all[q];
    SamePlace(all, i, q);
    if p < q {
      assert cut[p] == all[p] && cut[q] == all[q];
    }
    if k, l :| 0 <= k < l < |cut| && cut[k] == all[p] && cut[l] == all[q] {
      SamePlace(all, k, p);
      SamePlace(all, l, q);
    }
  }

  // ----- the lead -----

  /** The heavier of the two leads, the movie if they are equal. */
  ghost predicate IsLead(movies: seq<Seed>, shows: seq<Seed>, s: Seed) {
    || (|movies| > 0 && s == movies[0] && (|shows| > 0 ==> shows[0].weight <= s.weight))
    || (|shows| > 0 && s == shows[0] && (|movies| > 0 ==> movies[0].weight < s.weight))
  }

  lemma LeadsHeavierFirst(movies: seq<Seed>, shows: seq<Seed>)
    requires |movies| > 0 || |shows| > 0
    ensures |Leads(movies, shows)| > 0 && IsLead(movies, shows, Leads(movies, shows)[0])
  {
  }

  /** The leads go first, the heavier before the other, and every other seed follows as it stood. */
  lemma LedByRank(seeds: seq<Seed>, movies: seq<Seed>, shows: seq<Seed>, s: Seed, t: Seed)
    requires DistinctIds(seeds) && Grouped(seeds, movies, shows) && s in seeds && t in seeds && s != t
    ensures var lead := (x: Seed) => (|movies| > 0 && x == movies[0]) || (|shows| > 0 && x == shows[0]);
            Before(Led(seeds, movies, shows), s, t) <==>
            if lead(s) && lead(t) then IsLead(movies, shows, s)
            else if lead(s) || lead(t) then lead(s) else Before(seeds, s, t)
  {
    hide Grouped;
    hide Among;
    var leads := Leads(movies, shows);
    var rest := Among(seeds, Ids(leads), false);
    LeadsAreSeeds(seeds, movies, shows);
    LedSame(seeds, movies, shows);
    LeadIsIn(seeds, movies, shows, s);
    LeadIsIn(seeds, movies, shows, t);
    var p := PlaceAfter(seeds, leads, s);
    var q := PlaceAfter(seeds, leads, t);
    PlacesDecide(leads + rest, p, q);
    if p >= |leads| && q >= |leads| {
      AmongFollows(seeds, Ids(leads), false, p - |leads|, q - |leads|);
    }
  }

  lemma LeadIsIn(seeds: seq<Seed>, movies: seq<Seed>, shows: seq<Seed>, s: Seed)
    requires DistinctIds(seeds) && Grouped(seeds, movies, shows) && s in seeds
    ensures IdOf(s) in Ids(Leads(movies, shows)) <==>
            (|movies| > 0 && s == movies[0]) || (|shows| > 0 && s == shows[0])
    ensures s in Leads(movies, shows) <==> IdOf(s) in Ids(Leads(movies, shows))
  {
    LeadsAreSeeds(seeds, movies, shows);
    var leads := Leads(movies, shows);
    if IdOf(s) in Ids(leads) {
      var l :| l in leads && IdOf(l) == IdOf(s);
      ByIdMember(seeds, s, l);
    }
    if |movies| > 0 && s == movies[0] {
      assert s in leads;
    }
    if |shows| > 0 && s == shows[0] {
      assert s in leads;
    }
  }

  lemma PlaceAfter(seeds: seq<Seed>, leads: seq<Seed>, s: Seed) returns (p: nat)
    requires s in seeds && (s in leads <==> IdOf(s) in Ids(leads))
    ensures var all := leads + Among(seeds, Ids(leads), false);
            p < |all| && all[p] == s && (p < |leads| <==> s in leads)
  {
    var rest := Among(seeds, Ids(leads), false);
    if s in leads {
      p :| 0 <= p < |leads| && leads[p] == s;
    } else {
      assert s in rest;
      var q :| 0 <= q < |rest| && rest[q] == s;
      p := |leads| + q;
    }
  }

  // ----- the step of the cycle -----

  /** How many of the seeds have a smaller id. */
  function Below(seeds: seq<Seed>, id: int): nat {
    if |seeds| == 0 then 0 else (if seeds[0].title.tmdbId < id then 1 else 0) + Below(seeds[1..], id)
  }

  lemma {:induction false} PlaceBelow(s: Seed, seeds: seq<Seed>, id: int)
    ensures Below(Place(s, seeds), id) == Below(seeds, id) + (if s.title.tmdbId < id then 1 else 0)
  {
    if |seeds| > 0 && s.title.tmdbId > seeds[0].title.tmdbId {
      PlaceBelow(s, seeds[1..], id);
    }
  }

  lemma {:induction false} ByIdBelow(seeds: seq<Seed>, id: int)
    ensures Below(ById(seeds), id) == Below(seeds, id)
  {
    if |seeds| > 0 {
      ByIdBelow(seeds[1..], id);
      PlaceBelow(seeds[0], ById(seeds[1..]), id);
    }
  }

  ghost predicate Climbs(seeds: seq<Seed>) {
    forall i, j :: 0 <= i < j < |seeds| ==> seeds[i].title.tmdbId <= seeds[j].title.tmdbId
  }

  lemma {:induction false} PlaceClimbs(s: Seed, seeds: seq<Seed>)
    requires Climbs(seeds)
    ensures Climbs(Place(s, seeds))
    ensures forall i :: 0 <= i < |Place(s, seeds)| ==>
              Place(s, seeds)[i] == s || (|seeds| > 0 && Place(s, seeds)[i].title.tmdbId >= seeds[0].title.tmdbId)
  {
    if |seeds| > 0 && s.title.tmdbId > seeds[0].title.tmdbId {
      PlaceClimbs(s, seeds[1..]);
    }
  }

  lemma {:induction false} ByIdClimbs(seeds: seq<Seed>)
    ensures Climbs(ById(seeds))
  {
    if |seeds| > 0 {
      ByIdClimbs(seeds[1..]);
      PlaceClimbs(seeds[0], ById(seeds[1..]));
    }
  }

  lemma {:induction false} BelowInOrder(seeds: seq<Seed>, k: nat)
    requires k < |seeds| && forall i, j :: 0 <= i < j < |seeds| ==> seeds[i].title.tmdbId < seeds[j].title.tmdbId
    ensures Below(seeds, seeds[k].title.tmdbId) == k
  {
    if k > 0 {
      BelowInOrder(seeds[1..], k - 1);
    } else {
      NoneBelow(seeds, seeds[0].title.tmdbId);
    }
  }

  lemma {:induction false} NoneBelow(seeds: seq<Seed>, id: int)
    requires forall i :: 0 <= i < |seeds| ==> id <= seeds[i].title.tmdbId
    ensures Below(seeds, id) == 0
  {
    if |seeds| > 0 {
      NoneBelow(seeds[1..], id);
    }
  }

  lemma SortedStrictly(seeds: seq<Seed>)
    requires DistinctIds(seeds) && OneMedia(seeds)
    ensures forall i, j :: 0 <= i < j < |seeds| ==> ById(seeds)[i].title.tmdbId < ById(seeds)[j].title.tmdbId
  {
    ByIdClimbs(seeds);
    var sorted := ById(seeds);
    SameMembersDistinct(sorted, seeds);
    forall i, j | 0 <= i < j < |seeds|
      ensures sorted[i].title.tmdbId < sorted[j].title.tmdbId
    {
      assert sorted[i] in seeds && sorted[j] in seeds;
      assert IdOf(sorted[i]) != IdOf(sorted[j]);
    }
  }

  /** The step is taken in id order: the lead is the one of the newest watches with as many smaller ids among them as
      the offset leaves over. */
  lemma LeadIsNextById(seeds: seq<Seed>, window: nat, offset: int)
    requires DistinctIds(seeds) && OneMedia(seeds) && Window(seeds, window) > 1
    ensures var w := if window < |seeds| then window else |seeds|;
            var lead := CycleWindow(seeds, window, offset)[0];
            lead in seeds[..w] && Below(seeds[..w], lead.title.tmdbId) == offset % w
  {
    hide CycleWindow;
    hide ById;
    hide Below;
    hide DistinctIds;
    hide OneMedia;
    var w := Window(seeds, window);
    LeadIsFirst(seeds, window, offset);
    PrefixDistinct(seeds, w);
    SortedStrictly(seeds[..w]);
    BelowInOrder(ById(seeds[..w]), offset % w);
    ByIdBelow(seeds[..w], ById(seeds[..w])[offset % w].title.tmdbId);
    ChosenIsThere(seeds, w, offset % w);
  }

  lemma PrefixDistinct(seeds: seq<Seed>, w: nat)
    requires DistinctIds(seeds) && OneMedia(seeds) && w <= |seeds|
    ensures DistinctIds(seeds[..w]) && OneMedia(seeds[..w])
  {
  }
}
